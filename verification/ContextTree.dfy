/** Cancellation contexts: a tree of cancelCtx nodes, numbered in creation order. */
module ContextTree {
  import opened Basics

  /** A context value: value layers are transparent for cancellation. */
  datatype Context = Background | ValueCtx(parent: Context) | CancelCtx(id: nat)

  /** `parentCancelCtx`. */
  function ParentCancelCtx(ctx: Context): Option<nat> {
    match ctx
    case Background => None
    case ValueCtx(parent) => ParentCancelCtx(parent)
    case CancelCtx(id) => Some(id)
  }

  datatype Err = Canceled | Other(code: int)

  /** Per cancelCtx: the nearest cancelCtx above it, whether it was connected to it, its error, and
      its list of children.  `closed` lists the Done channels in the order they were closed. */
  datatype Tree = Tree(
    parent: seq<Option<nat>>,
    connected: seq<bool>,
    errs: seq<Option<Err>>,
    children: seq<seq<nat>>,
    closed: seq<nat>)
  {
    predicate Shaped() {
      |parent| == |connected| == |errs| == |children|
    }

    predicate Live(c: nat)
      requires Shaped()
    {
      c < |errs| && errs[c].None?
    }
  }

  const NO_CONTEXTS := Tree([], [], [], [], [])

  function CountLive(errs: seq<Option<Err>>): nat {
    if errs == [] then 0 else (if errs[0].None? then 1 else 0) + CountLive(errs[1..])
  }

  lemma {:induction false} CountLiveUpdate(errs: seq<Option<Err>>, i: nat, e: Err)
    requires i < |errs| && errs[i].None?
    ensures CountLive(errs[i := Some(e)]) == CountLive(errs) - 1
  {
    if i == 0 {
      assert errs[i := Some(e)][1..] == errs[1..];
    } else {
      assert errs[i := Some(e)][1..] == errs[1..][i - 1 := Some(e)];
      CountLiveUpdate(errs[1..], i - 1, e);
    }
  }

  function Without(s: seq<nat>, x: nat): seq<nat> {
    if s == [] then [] else if s[0] == x then s[1..] else [s[0]] + Without(s[1..], x)
  }

  /** `removeChild`: takes `c` off the list of its parent, if it is there. */
  function RemoveChild(t: Tree, c: nat): Tree
    requires t.Shaped() && c < |t.errs|
  {
    match t.parent[c]
    case None => t
    case Some(p) => if p < |t.errs| then t.(children := t.children[p := Without(t.children[p], c)]) else t
  }

  /** What surrounds the tree: the callbacks that run when the Done channel of a context closes, each of
      which cancels a context, and the order in which the detached list of a context is walked. */
  datatype World = World(callbacks: nat -> seq<nat>, walk: (nat, seq<nat>) -> seq<nat>) {
    /** The walk visits every child once: in list order with ordered cancellation, else in any order, as
        a Go map is ranged over. */
    ghost predicate Fair() {
      forall c: nat, kids: seq<nat> :: multiset(walk(c, kids)) == multiset(kids)
    }
  }

  function Close(t: Tree, c: nat, e: Err): (r: Tree)
    requires t.Shaped() && t.Live(c)
    ensures r.Shaped() && CountLive(r.errs) < CountLive(t.errs)
  {
    CountLiveUpdate(t.errs, c, e);
    t.(errs := t.errs[c := Some(e)], closed := t.closed + [c])
  }

  /** Takes the whole child list of `c` away from it. */
  function Detach(t: Tree, c: nat): (r: Tree)
    requires t.Shaped() && c < |t.errs|
    ensures r.Shaped() && r.errs == t.errs
  {
    t.(children := t.children[c := []])
  }

  /** `cancel`: the first call stores the error and closes Done, which may run callbacks; then the
      child list is detached and walked in creation order. */
  function Cancel(t: Tree, w: World, c: nat, removeFromParent: bool, e: Err): (r: Tree)
    requires t.Shaped()
    ensures r.Shaped() && |r.errs| == |t.errs| && CountLive(r.errs) <= CountLive(t.errs)
    decreases CountLive(t.errs), 0
  {
    if !t.Live(c) then t
    else
      var t1 := Close(t, c, e);
      var t2 := CancelAll(t1, w, w.callbacks(c), true, Canceled);
      var t3 := CancelAll(Detach(t2, c), w, w.walk(c, t2.children[c]), false, e);
      if removeFromParent then RemoveChild(t3, c) else t3
  }

  function CancelAll(t: Tree, w: World, cs: seq<nat>, removeFromParent: bool, e: Err): (r: Tree)
    requires t.Shaped()
    ensures r.Shaped() && |r.errs| == |t.errs| && CountLive(r.errs) <= CountLive(t.errs)
    decreases CountLive(t.errs), |cs| + 1
  {
    if cs == [] then t
    else CancelAll(Cancel(t, w, cs[0], removeFromParent, e), w, cs[1..], removeFromParent, e)
  }

  function Append(t: Tree, parent: Option<nat>, connected: bool): Tree {
    t.(parent := t.parent + [parent], connected := t.connected + [connected],
       errs := t.errs + [None], children := t.children + [[]])
  }

  /** `WithCancel`: a child of a cancelled context is cancelled at once with the same error. */
  function WithCancel(t: Tree, w: World, ctx: Context): (r: Tree)
    requires t.Shaped()
    ensures r.Shaped()
  {
    var c := |t.errs|;
    match ParentCancelCtx(ctx)
    case None => Append(t, None, false)
    case Some(p) =>
      if p >= |t.errs| then Append(t, None, false)
      else
        var t' := Append(t, Some(p), true);
        match t.errs[p]
        case Some(e) => Cancel(t', w, c, false, e)
        case None => t'.(children := t'.children[p := t'.children[p] + [c]])
  }

  /** `NewDisconnectedContext`. */
  function NewDisconnected(t: Tree, ctx: Context): (r: Tree)
    requires t.Shaped()
    ensures r.Shaped()
  {
    match ParentCancelCtx(ctx)
    case None => Append(t, None, false)
    case Some(p) => Append(t, if p < |t.errs| then Some(p) else None, false)
  }

  datatype TreeOp = MakeChild(ctx: Context) | MakeDisconnected(ctx: Context) | CallCancel(id: nat)

  function TreeStep(t: Tree, w: World, op: TreeOp): (r: Tree)
    requires t.Shaped()
    ensures r.Shaped()
  {
    match op
    case MakeChild(ctx) => WithCancel(t, w, ctx)
    case MakeDisconnected(ctx) => NewDisconnected(t, ctx)
    case CallCancel(id) => Cancel(t, w, id, true, Canceled)
  }

  function TreeRun(t: Tree, w: World, ops: seq<TreeOp>): (r: Tree)
    requires t.Shaped()
    ensures r.Shaped()
    decreases |ops|
  {
    if ops == [] then t else TreeRun(TreeStep(t, w, ops[0]), w, ops[1..])
  }
}
