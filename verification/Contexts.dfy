/** The cancelCtx operations as the program performs them: fields reassigned step by step. */
module Contexts {
  import opened Basics
  import opened ContextTree

  class Contexts {
    const w: World
    var parent: seq<Option<nat>>
    var connected: seq<bool>
    var errs: seq<Option<Err>>
    var children: seq<seq<nat>>
    var closed: seq<nat>

    ghost function View(): Tree
      reads this
    {
      Tree(parent, connected, errs, children, closed)
    }

    constructor (w: World)
      ensures View() == NO_CONTEXTS && this.w == w
    {
      this.w := w;
      parent, connected, errs, children, closed := [], [], [], [], [];
    }

    method RemoveChild(c: nat)
      requires View().Shaped() && c < |errs|
      modifies this
      ensures View() == ContextTree.RemoveChild(old(View()), c)
    {
      if parent[c].Some? && parent[c].value < |errs| {
        var p := parent[c].value;
        children := children[p := Without(children[p], c)];
      }
    }

    /** `cancel`: stores the error, closes Done (which runs the callbacks), detaches the list, walks
        it, and unlinks from the parent. */
    method Cancel(c: nat, removeFromParent: bool, e: Err)
      requires View().Shaped()
      modifies this
      ensures View() == ContextTree.Cancel(old(View()), w, c, removeFromParent, e)
      decreases CountLive(errs), 0
    {
      if c >= |errs| || errs[c].Some? {
        return;
      }
      CountLiveUpdate(errs, c, e);
      errs := errs[c := Some(e)];
      closed := closed + [c];
      CancelEach(w.callbacks(c), true, Canceled);
      var taken := children[c];
      children := children[c := []];
      CancelEach(w.walk(c, taken), false, e);
      if removeFromParent {
        RemoveChild(c);
      }
    }

    method CancelEach(cs: seq<nat>, removeFromParent: bool, e: Err)
      requires View().Shaped()
      modifies this
      ensures View() == CancelAll(old(View()), w, cs, removeFromParent, e)
      decreases CountLive(errs), |cs| + 1
    {
      var i := 0;
      while i < |cs|
        invariant 0 <= i <= |cs| && View().Shaped() && CountLive(errs) <= CountLive(old(errs))
        invariant CancelAll(View(), w, cs[i..], removeFromParent, e)
               == CancelAll(old(View()), w, cs, removeFromParent, e)
      {
        Cancel(cs[i], removeFromParent, e);
        assert cs[i..][1..] == cs[i + 1..];
        i := i + 1;
      }
    }

    /** `WithCancel` and `propagateCancel`; returns the new context. */
    method MakeChild(ctx: Context) returns (c: nat)
      requires View().Shaped()
      modifies this
      ensures View() == WithCancel(old(View()), w, ctx) && c == old(|errs|)
    {
      c := |errs|;
      var p := ParentCancelCtx(ctx);
      var found := p.Some? && p.value < |errs|;
      parent := parent + [if found then p else None];
      connected := connected + [found];
      errs := errs + [None];
      children := children + [[]];
      if found {
        if errs[p.value].Some? {
          Cancel(c, false, errs[p.value].value);
        } else {
          children := children[p.value := children[p.value] + [c]];
        }
      }
    }

    /** `NewDisconnectedContext`; returns the new context. */
    method MakeDisconnected(ctx: Context) returns (c: nat)
      requires View().Shaped()
      modifies this
      ensures View() == NewDisconnected(old(View()), ctx) && c == old(|errs|)
    {
      c := |errs|;
      var p := ParentCancelCtx(ctx);
      parent := parent + [if p.Some? && p.value < |errs| then p else None];
      connected := connected + [false];
      errs := errs + [None];
      children := children + [[]];
    }
  }
}
