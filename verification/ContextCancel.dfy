/** What cancelling a context does to the whole tree, whatever the callbacks on Done do. */
module ContextCancel {
  import opened Basics
  import opened ContextTree

  /** `y` was made by WithCancel directly under `x`. */
  ghost predicate Child(t: Tree, x: nat, y: nat)
    requires t.Shaped()
  {
    y < |t.errs| && t.connected[y] && t.parent[y] == Some(x)
  }

  /** The list of `x` holds all its live children. */
  ghost predicate Complete(t: Tree, x: nat)
    requires t.Shaped() && x < |t.errs|
  {
    forall y: nat | Child(t, x, y) && t.errs[y].None? :: y in t.children[x]
  }

  /** All children of `x` are cancelled. */
  ghost predicate Down(t: Tree, x: nat)
    requires t.Shaped()
  {
    forall y: nat | Child(t, x, y) :: t.errs[y].Some?
  }

  ghost predicate Sorted(s: seq<nat>) {
    forall i, j | 0 <= i < j < |s| :: s[i] < s[j]
  }

  /** Parents are older than their children, and lists hold children in creation order. */
  ghost predicate WellFormed(t: Tree) {
    && t.Shaped()
    && (forall c | 0 <= c < |t.errs| && t.parent[c].Some? :: t.parent[c].value < c)
    && (forall x | 0 <= x < |t.errs| :: Sorted(t.children[x]))
    && (forall x: nat, y: nat | x < |t.errs| && y in t.children[x] :: Child(t, x, y))
  }

  /** Each Done channel was closed once, for exactly the cancelled contexts. */
  ghost predicate ClosedOnce(t: Tree)
    requires t.Shaped()
  {
    && (forall i, j | 0 <= i < j < |t.closed| :: t.closed[i] != t.closed[j])
    && (forall c: nat :: c in t.closed <==> c < |t.errs| && t.errs[c].Some?)
  }

  /** A live context knows its live children; a cancelled one has none. */
  ghost predicate TreeInv(t: Tree) {
    && WellFormed(t) && ClosedOnce(t)
    && (forall x | 0 <= x < |t.errs| :: if t.errs[x].None? then Complete(t, x) else Down(t, x))
  }

  /** The shape and stored errors stay, and the channels that close are those of newly cancelled
      contexts. */
  ghost predicate Grows(t: Tree, r: Tree)
    requires WellFormed(t)
  {
    && WellFormed(r) && |r.errs| == |t.errs| && r.parent == t.parent && r.connected == t.connected
    && (forall x | 0 <= x < |t.errs| && t.errs[x].Some? :: r.errs[x] == t.errs[x])
    && (ClosedOnce(t) ==> ClosedOnce(r)) && t.closed <= r.closed
  }

  /** Of a context whose list was complete: the list stays complete, or the context was cancelled
      on the way and has no live child. */
  ghost predicate Followed(t: Tree, r: Tree, x: nat)
    requires WellFormed(t) && Grows(t, r) && x < |t.errs|
  {
    Complete(t, x) ==> if t.errs[x].Some? || r.errs[x].None? then Complete(r, x) else Down(r, x)
  }

  /** What any cancellation does, whatever its callbacks. */
  ghost predicate Advances(t: Tree, r: Tree)
    requires WellFormed(t)
  {
    Grows(t, r) && forall x | 0 <= x < |t.errs| :: Followed(t, r, x)
  }

  lemma GrowsTransitive(a: Tree, b: Tree, c: Tree)
    requires WellFormed(a) && Grows(a, b) && Grows(b, c)
    ensures Grows(a, c)
  {}

  lemma DownStays(a: Tree, b: Tree, x: nat)
    requires WellFormed(a) && Grows(a, b) && Down(a, x)
    ensures Down(b, x)
  {
    forall y: nat | Child(b, x, y) ensures b.errs[y].Some? {
      assert Child(a, x, y);
    }
  }

  lemma AdvancesTransitive(a: Tree, b: Tree, c: Tree)
    requires WellFormed(a) && Advances(a, b) && Advances(b, c)
    ensures Advances(a, c)
  {
    GrowsTransitive(a, b, c);
    forall x | 0 <= x < |a.errs| ensures Followed(a, c, x) {
      assert Followed(a, b, x) && Followed(b, c, x);
      if Complete(a, x) && a.errs[x].None? && b.errs[x].Some? {
        DownStays(b, c, x);
      }
    }
  }

  lemma {:induction false} WithoutSorted(s: seq<nat>, x: nat)
    requires Sorted(s)
    ensures Sorted(Without(s, x))
    ensures forall y :: y in Without(s, x) <==> y in s && y != x
  {
    if s != [] {
      WithoutSorted(s[1..], x);
      assert s == [s[0]] + s[1..];
      forall y | y in s[1..] ensures s[0] < y {
        var i :| 0 <= i < |s[1..]| && s[1..][i] == y;
        assert s[i + 1] == y;
      }
      if s[0] != x {
        SortedCons(s[0], Without(s[1..], x));
      }
    }
  }

  lemma SortedCons(x: nat, s: seq<nat>)
    requires Sorted(s) && forall y | y in s :: x < y
    ensures Sorted([x] + s)
  {
    var r := [x] + s;
    forall i, j | 0 <= i < j < |r| ensures r[i] < r[j] {
      assert r[j] == s[j - 1] && s[j - 1] in s;
      if i != 0 { assert r[i] == s[i - 1]; }
    }
  }

  /** Taking a cancelled context off its parent's list loses no live child. */
  lemma RemoveChildAdvances(t: Tree, c: nat)
    requires WellFormed(t) && c < |t.errs| && t.errs[c].Some?
    ensures Advances(t, RemoveChild(t, c))
  {
    if t.parent[c].Some? && t.parent[c].value < |t.errs| {
      WithoutSorted(t.children[t.parent[c].value], c);
    }
  }

  /** Closing `c` keeps every list complete. */
  lemma CloseEffect(t: Tree, c: nat, e: Err)
    requires WellFormed(t) && t.Live(c)
    ensures Grows(t, Close(t, c, e)) && Close(t, c, e).errs[c] == Some(e)
    ensures forall x | 0 <= x < |t.errs| && Complete(t, x) :: Complete(Close(t, c, e), x)
  {
    var t1 := Close(t, c, e);
    assert WellFormed(t1);
    if ClosedOnce(t) {
      assert c !in t.closed;
      assert forall x: nat :: x in t1.closed <==> x in t.closed || x == c;
      assert forall i | 0 <= i < |t.closed| :: t.closed[i] in t.closed;
    }
  }

  lemma DetachEffect(t: Tree, c: nat)
    requires WellFormed(t) && c < |t.errs|
    ensures Grows(t, Detach(t, c))
    ensures forall x | 0 <= x < |t.errs| && x != c && Complete(t, x) :: Complete(Detach(t, c), x)
  {
    var d := Detach(t, c);
    assert WellFormed(d);
    assert ClosedOnce(t) ==> ClosedOnce(d);
    forall x | 0 <= x < |t.errs| && x != c && Complete(t, x) ensures Complete(d, x) {
      forall y: nat | Child(d, x, y) && d.errs[y].None? ensures y in d.children[x] {
        assert Child(t, x, y);
      }
    }
  }

  lemma {:induction false} CancelAdvances(t: Tree, w: World, c: nat, removeFromParent: bool, e: Err)
    requires WellFormed(t) && w.Fair()
    ensures Advances(t, Cancel(t, w, c, removeFromParent, e))
    ensures !Cancel(t, w, c, removeFromParent, e).Live(c)
    ensures t.Live(c) ==> Cancel(t, w, c, removeFromParent, e).errs[c] == Some(e)
    decreases CountLive(t.errs), 0
  {
    if t.Live(c) {
      CloseEffect(t, c, e);
      var t1 := Close(t, c, e);
      CancelAllAdvances(t1, w, w.callbacks(c), true, Canceled);
      var t2 := CancelAll(t1, w, w.callbacks(c), true, Canceled);
      DetachEffect(t2, c);
      var kids := w.walk(c, t2.children[c]);
      WalkMembers(w, c, t2.children[c]);
      CancelAllAdvances(Detach(t2, c), w, kids, false, e);
      var t3 := CancelAll(Detach(t2, c), w, kids, false, e);
      BodyAdvances(t, t1, t2, t3, c, e);
      if removeFromParent {
        RemoveChildAdvances(t3, c);
        AdvancesTransitive(t, t3, RemoveChild(t3, c));
      }
    }
  }

  lemma WalkMembers(w: World, c: nat, kids: seq<nat>)
    requires w.Fair()
    ensures forall k :: k in w.walk(c, kids) <==> k in kids
  {
    assert multiset(w.walk(c, kids)) == multiset(kids);
    assert forall k :: k in w.walk(c, kids) <==> k in multiset(w.walk(c, kids));
  }

  /** Close, callbacks, detach and walk, put together. */
  lemma BodyAdvances(t: Tree, t1: Tree, t2: Tree, t3: Tree, c: nat, e: Err)
    requires WellFormed(t) && t.Live(c) && t1 == Close(t, c, e)
    requires WellFormed(t1) && Advances(t1, t2)
    requires WellFormed(Detach(t2, c)) && Advances(Detach(t2, c), t3)
    requires forall k | k in t2.children[c] :: !t3.Live(k)
    ensures Advances(t, t3) && t3.errs[c] == Some(e)
  {
    var d := Detach(t2, c);
    CloseEffect(t, c, e);
    DetachEffect(t2, c);
    GrowsTransitive(t, t1, t2);
    GrowsTransitive(t, t2, d);
    GrowsTransitive(t, d, t3);
    forall x | 0 <= x < |t.errs| ensures Followed(t, t3, x) {
      if Complete(t, x) {
        assert Complete(t1, x) && Followed(t1, t2, x) && Followed(d, t3, x);
        if x == c {
          DetachedGoDown(t2, t3, c);
        } else if t1.errs[x].None? && t2.errs[x].Some? {
          DownStays(t2, d, x);
          DownStays(d, t3, x);
        } else {
          assert Complete(d, x);
        }
      }
    }
  }

  /** Detaching the list of `c` and walking it cancels every child of `c`. */
  lemma DetachedGoDown(t2: Tree, t3: Tree, c: nat)
    requires WellFormed(t2) && c < |t2.errs| && Complete(t2, c)
    requires WellFormed(Detach(t2, c)) && Grows(Detach(t2, c), t3)
    requires forall k | k in t2.children[c] :: !t3.Live(k)
    ensures Down(t3, c)
  {
    forall y: nat | Child(t3, c, y) ensures t3.errs[y].Some? {
      assert Child(t2, c, y);
      if t2.errs[y].None? {
        assert y in t2.children[c];
      }
    }
  }

  lemma {:induction false} CancelAllAdvances(t: Tree, w: World, cs: seq<nat>, removeFromParent: bool, e: Err)
    requires WellFormed(t) && w.Fair()
    ensures Advances(t, CancelAll(t, w, cs, removeFromParent, e))
    ensures forall k | k in cs :: !CancelAll(t, w, cs, removeFromParent, e).Live(k)
    decreases CountLive(t.errs), |cs| + 1
  {
    if cs != [] {
      var t1 := Cancel(t, w, cs[0], removeFromParent, e);
      CancelAdvances(t, w, cs[0], removeFromParent, e);
      CancelAllAdvances(t1, w, cs[1..], removeFromParent, e);
      AdvancesTransitive(t, t1, CancelAll(t, w, cs, removeFromParent, e));
    }
  }

  /** `y` is `x` or lies below it along connected links. */
  ghost predicate Descends(t: Tree, x: nat, y: nat)
    requires WellFormed(t) && y < |t.errs|
    decreases y
  {
    y == x || (t.connected[y] && t.parent[y].Some? && Descends(t, x, t.parent[y].value))
  }

  lemma AppendEffect(t: Tree, parent: Option<nat>, connected: bool)
    requires TreeInv(t) && (parent.Some? ==> parent.value < |t.errs|)
    ensures var r := Append(t, parent, connected);
            && WellFormed(r) && ClosedOnce(r) && r.errs[..|t.errs|] == t.errs && t.closed <= r.closed
            && (forall x: nat | x < |t.errs| && (!connected || parent != Some(x)) ::
                  if t.errs[x].None? then Complete(r, x) else Down(r, x))
            && Complete(r, |t.errs|)
  {
    var r := Append(t, parent, connected);
    var n := |t.errs|;
    assert forall x: nat, y: nat | x < n && y < n :: Child(r, x, y) <==> Child(t, x, y);
    forall x: nat, y: nat | x < |r.errs| && y in r.children[x] ensures Child(r, x, y) {
      assert Child(t, x, y);
    }
    forall x: nat | x < n && (!connected || parent != Some(x))
      ensures if t.errs[x].None? then Complete(r, x) else Down(r, x)
    {
      assert if t.errs[x].None? then Complete(t, x) else Down(t, x);
    }
  }

  lemma AdvancesKeeps(t: Tree, r: Tree)
    requires TreeInv(t) && Advances(t, r)
    ensures TreeInv(r)
  {
    forall x | 0 <= x < |r.errs| ensures if r.errs[x].None? then Complete(r, x) else Down(r, x) {
      assert Followed(t, r, x);
      if t.errs[x].Some? {
        DownStays(t, r, x);
      }
    }
  }

  /** Contexts are only added, and what was cancelled keeps its error. */
  ghost predicate Extends(t: Tree, r: Tree)
    requires t.Shaped() && r.Shaped()
  {
    && |t.errs| <= |r.errs| && t.closed <= r.closed
    && forall x | 0 <= x < |t.errs| && t.errs[x].Some? :: r.errs[x] == t.errs[x]
  }

  lemma LateChildDown(t: Tree, r: Tree, p: nat)
    requires TreeInv(t) && p < |t.errs| && t.errs[p].Some?
    requires WellFormed(Append(t, Some(p), true)) && Grows(Append(t, Some(p), true), r) && r.errs[|t.errs|].Some?
    ensures Down(r, p)
  {
    var t' := Append(t, Some(p), true);
    assert Down(t, p);
    forall y: nat | Child(r, p, y) ensures r.errs[y].Some? {
      assert Child(t', p, y);
      if y < |t.errs| {
        assert Child(t, p, y) && t'.errs[y] == t.errs[y];
      }
    }
  }

  /** A child made under a cancelled context is cancelled, with the same error, before it is returned. */
  lemma BornCancelled(t: Tree, w: World, p: nat, e: Err)
    requires TreeInv(t) && w.Fair() && p < |t.errs| && t.errs[p] == Some(e)
    ensures var r := Cancel(Append(t, Some(p), true), w, |t.errs|, false, e);
            TreeInv(r) && Extends(t, r) && |r.errs| == |t.errs| + 1 && r.errs[|t.errs|] == Some(e)
  {
    var n := |t.errs|;
    var t' := Append(t, Some(p), true);
    AppendEffect(t, Some(p), true);
    CancelAdvances(t', w, n, false, e);
    var r := Cancel(t', w, n, false, e);
    assert t'.Live(n);
    LateChildDown(t, r, p);
    forall x | 0 <= x < |r.errs| ensures if r.errs[x].None? then Complete(r, x) else Down(r, x) {
      assert Followed(t', r, x);
      if x != p && x < n && t.errs[x].Some? {
        DownStays(t', r, x);
      }
    }
    assert forall x | 0 <= x < n :: t'.errs[x] == t.errs[x];
  }

  /** `t` with `n` added to the list of `p`. */
  function Listed(t: Tree, p: nat, n: nat): Tree
    requires t.Shaped() && p < |t.errs|
  {
    t.(children := t.children[p := t.children[p] + [n]])
  }

  lemma ListedWellFormed(t: Tree, p: nat, n: nat)
    requires WellFormed(t) && p < |t.errs| && Child(t, p, n) && forall y | y in t.children[p] :: y < n
    ensures WellFormed(Listed(t, p, n)) && (ClosedOnce(t) ==> ClosedOnce(Listed(t, p, n)))
  {
    var r := Listed(t, p, n);
    var kids := t.children[p];
    assert forall i | 0 <= i < |kids| :: kids[i] in kids;
    assert Sorted(r.children[p]);
    forall x: nat, y: nat | x < |r.errs| && y in r.children[x] ensures Child(r, x, y) {
      assert y in t.children[x] || (x == p && y == n);
      assert Child(t, x, y);
    }
  }

  lemma ListedFollows(t: Tree, p: nat, n: nat, x: nat)
    requires WellFormed(t) && p < |t.errs| && x < |t.errs|
    ensures Complete(t, x) ==> Complete(Listed(t, p, n), x)
    ensures Down(t, x) ==> Down(Listed(t, p, n), x)
  {
    assert forall y: nat :: Child(Listed(t, p, n), x, y) <==> Child(t, x, y);
  }

  /** A child made under a live context goes to the end of its list. */
  lemma BornLive(t: Tree, p: nat)
    requires TreeInv(t) && t.Live(p)
    ensures var r := Listed(Append(t, Some(p), true), p, |t.errs|);
            TreeInv(r) && Extends(t, r) && |r.errs| == |t.errs| + 1
  {
    var n := |t.errs|;
    var t' := Append(t, Some(p), true);
    AppendEffect(t, Some(p), true);
    ListedWellFormed(t', p, n);
    var r := Listed(t', p, n);
    forall x | 0 <= x < |r.errs| ensures if r.errs[x].None? then Complete(r, x) else Down(r, x) {
      ListedFollows(t', p, n, x);
      if x == p {
        assert Complete(t, p);
        forall y: nat | Child(r, p, y) && r.errs[y].None? ensures y in r.children[p] {
          assert y < n ==> Child(t, p, y);
        }
      }
    }
  }

  lemma AloneKeeps(t: Tree, parent: Option<nat>)
    requires TreeInv(t) && (parent.Some? ==> parent.value < |t.errs|)
    ensures TreeInv(Append(t, parent, false)) && Extends(t, Append(t, parent, false))
  {
    AppendEffect(t, parent, false);
  }

  /** Every operation on the tree keeps the invariant, whatever runs when a channel closes. */
  lemma StepKeepsTree(t: Tree, w: World, op: TreeOp)
    requires TreeInv(t) && w.Fair()
    ensures TreeInv(TreeStep(t, w, op)) && Extends(t, TreeStep(t, w, op))
  {
    if op.CallCancel? {
      CancelAdvances(t, w, op.id, true, Canceled);
      AdvancesKeeps(t, TreeStep(t, w, op));
    } else {
      var p := ParentCancelCtx(op.ctx);
      if p.None? || p.value >= |t.errs| {
        AloneKeeps(t, None);
      } else if op.MakeDisconnected? {
        AloneKeeps(t, p);
      } else if t.errs[p.value].Some? {
        BornCancelled(t, w, p.value, t.errs[p.value].value);
      } else {
        BornLive(t, p.value);
      }
    }
  }

  lemma {:induction false} RunKeepsTree(t: Tree, w: World, ops: seq<TreeOp>)
    requires TreeInv(t) && w.Fair()
    ensures TreeInv(TreeRun(t, w, ops)) && Extends(t, TreeRun(t, w, ops))
    decreases |ops|
  {
    if ops != [] {
      StepKeepsTree(t, w, ops[0]);
      RunKeepsTree(TreeStep(t, w, ops[0]), w, ops[1..]);
    }
  }

  lemma {:induction false} CancelledDescendants(t: Tree, x: nat, y: nat)
    requires TreeInv(t) && x < |t.errs| && t.errs[x].Some? && y < |t.errs| && Descends(t, x, y)
    ensures t.errs[y].Some?
    decreases y
  {
    if y != x {
      CancelledDescendants(t, x, t.parent[y].value);
      assert Child(t, t.parent[y].value, y);
    }
  }

  /** After any run of the API, with any callbacks: no context below a cancelled one is live, and
      each Done channel was closed exactly once for each cancelled context. */
  lemma NoLiveBelowCancelled(w: World, ops: seq<TreeOp>)
    requires w.Fair()
    ensures var t := TreeRun(NO_CONTEXTS, w, ops);
            && TreeInv(t)
            && (forall x: nat, y: nat | x < |t.errs| && y < |t.errs| && t.errs[x].Some? && Descends(t, x, y) ::
                  t.errs[y].Some?)
            && (forall y: nat | y < |t.errs| :: multiset(t.closed)[y] == if t.errs[y].Some? then 1 else 0)
  {
    RunKeepsTree(NO_CONTEXTS, w, ops);
    var t := TreeRun(NO_CONTEXTS, w, ops);
    forall x: nat, y: nat | x < |t.errs| && y < |t.errs| && t.errs[x].Some? && Descends(t, x, y)
      ensures t.errs[y].Some?
    {
      CancelledDescendants(t, x, y);
    }
    forall y: nat | y < |t.errs| ensures multiset(t.closed)[y] == if t.errs[y].Some? then 1 else 0 {
      if t.errs[y].Some? {
        OnceInDistinct(t.closed, y);
      } else {
        assert y !in t.closed;
      }
    }
  }

  lemma {:induction false} OnceInDistinct(s: seq<nat>, x: nat)
    requires x in s && forall i, j | 0 <= i < j < |s| :: s[i] != s[j]
    ensures multiset(s)[x] == 1
  {
    assert s == [s[0]] + s[1..];
    if s[0] == x {
      assert x !in s[1..];
    } else {
      OnceInDistinct(s[1..], x);
    }
  }
}
