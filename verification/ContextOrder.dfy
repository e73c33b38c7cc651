/** Without callbacks, cancelling a context closes exactly its live descendants, parents first and
    siblings in the order they are walked: with ordered cancellation, as they were made. */
module ContextOrder {
  import opened Basics
  import opened ContextTree
  import opened ContextCancel

  /** The live part of the tree below `c`, in preorder; independent of any cancellation. */
  ghost function Subtree(t: Tree, w: World, c: nat): seq<nat>
    requires WellFormed(t) && w.Fair()
    decreases if c < |t.errs| then |t.errs| - c else 0, 0
  {
    if !t.Live(c) then []
    else
      WalkWithin(t, w, c);
      [c] + Forest(t, w, c + 1, w.walk(c, t.children[c]))
  }

  ghost predicate Within(t: Tree, lo: nat, cs: seq<nat>) {
    forall i | 0 <= i < |cs| :: lo <= cs[i] < |t.errs|
  }

  ghost function Forest(t: Tree, w: World, lo: nat, cs: seq<nat>): seq<nat>
    requires WellFormed(t) && w.Fair() && Within(t, lo, cs)
    decreases if lo < |t.errs| then |t.errs| - lo else 0, |cs| + 1
  {
    if cs == [] then [] else Subtree(t, w, cs[0]) + Forest(t, w, lo, cs[1..])
  }

  ghost predicate Distinct(s: seq<nat>) {
    forall i, j | 0 <= i < j < |s| :: s[i] != s[j]
  }

  lemma {:induction false} CountedOnce(s: seq<nat>, x: nat)
    requires Distinct(s)
    ensures multiset(s)[x] <= 1
  {
    if s != [] {
      assert s == [s[0]] + s[1..];
      CountedOnce(s[1..], x);
      if s[0] == x {
        assert x !in s[1..];
      }
    }
  }

  /** A rearrangement of distinct elements is distinct. */
  lemma Rearranged(s: seq<nat>, r: seq<nat>)
    requires Distinct(s) && multiset(r) == multiset(s)
    ensures Distinct(r)
  {
    forall i, j | 0 <= i < j < |r| ensures r[i] != r[j] {
      CountedOnce(s, r[i]);
      assert r == r[..j] + r[j..];
      assert r[i] in r[..j] && r[j] in r[j..];
      assert multiset(r)[r[i]] == multiset(r[..j])[r[i]] + multiset(r[j..])[r[i]];
    }
  }

  /** The children of a context in the order they are walked. */
  lemma WalkWithin(t: Tree, w: World, c: nat)
    requires WellFormed(t) && w.Fair() && c < |t.errs|
    ensures var kids := w.walk(c, t.children[c]);
            Siblings(t, c, kids) && Within(t, c + 1, kids) && Distinct(kids)
  {
    var kids := w.walk(c, t.children[c]);
    WalkMembers(w, c, t.children[c]);
    forall i | 0 <= i < |kids| ensures Child(t, c, kids[i]) {
      assert kids[i] in kids;
    }
    Rearranged(t.children[c], kids);
  }

  ghost predicate Siblings(t: Tree, p: nat, cs: seq<nat>)
    requires t.Shaped()
  {
    forall i | 0 <= i < |cs| :: Child(t, p, cs[i])
  }

  lemma {:induction false} DescendsUp(t: Tree, x: nat, k: nat, y: nat)
    requires WellFormed(t) && y < |t.errs| && Child(t, x, k) && Descends(t, k, y)
    ensures Descends(t, x, y)
    decreases y
  {
    if y != k {
      DescendsUp(t, x, k, t.parent[y].value);
    }
  }

  lemma {:induction false} DescendsGrows(t: Tree, x: nat, y: nat)
    requires WellFormed(t) && y < |t.errs| && Descends(t, x, y)
    ensures x <= y
    decreases y
  {
    if y != x {
      DescendsGrows(t, x, t.parent[y].value);
    }
  }

  /** Two ancestors of one context are related. */
  lemma {:induction false} AncestorsComparable(t: Tree, a: nat, b: nat, y: nat)
    requires WellFormed(t) && a < |t.errs| && b < |t.errs| && y < |t.errs|
    requires Descends(t, a, y) && Descends(t, b, y)
    ensures Descends(t, a, b) || Descends(t, b, a)
    decreases y
  {
    if y != a && y != b {
      AncestorsComparable(t, a, b, t.parent[y].value);
    }
  }

  /** The subtrees of two children of one context share nothing. */
  lemma SiblingsDisjoint(t: Tree, p: nat, a: nat, b: nat, y: nat)
    requires WellFormed(t) && Child(t, p, a) && Child(t, p, b) && a != b && y < |t.errs| && Descends(t, a, y)
    ensures !Descends(t, b, y)
  {
    if Descends(t, b, y) {
      AncestorsComparable(t, a, b, y);
      if Descends(t, a, b) {
        DescendsGrows(t, a, p);
      } else {
        DescendsGrows(t, b, p);
      }
    }
  }

  /** The trees agree on everything at or below `k`. */
  ghost predicate SameBelow(t: Tree, r: Tree, k: nat)
    requires WellFormed(t) && WellFormed(r) && |t.errs| == |r.errs|
  {
    forall y: nat | y < |t.errs| && Descends(t, k, y) :: t.errs[y] == r.errs[y] && t.children[y] == r.children[y]
  }

  lemma {:induction false} SubtreeLocal(t: Tree, r: Tree, w: World, c: nat)
    requires WellFormed(t) && WellFormed(r) && w.Fair() && |t.errs| == |r.errs| && SameBelow(t, r, c)
    ensures Subtree(t, w, c) == Subtree(r, w, c)
    decreases if c < |t.errs| then |t.errs| - c else 0, 0
  {
    if c < |t.errs| {
      assert Descends(t, c, c);
      if t.Live(c) {
        var kids := w.walk(c, t.children[c]);
        WalkWithin(t, w, c);
        forall i | 0 <= i < |kids| ensures SameBelow(t, r, kids[i]) {
          forall y: nat | y < |t.errs| && Descends(t, kids[i], y)
            ensures t.errs[y] == r.errs[y] && t.children[y] == r.children[y]
          {
            DescendsUp(t, c, kids[i], y);
          }
        }
        ForestLocal(t, r, w, c + 1, kids);
      }
    }
  }

  lemma {:induction false} ForestLocal(t: Tree, r: Tree, w: World, lo: nat, cs: seq<nat>)
    requires WellFormed(t) && WellFormed(r) && w.Fair() && |t.errs| == |r.errs|
    requires Within(t, lo, cs) && forall i | 0 <= i < |cs| :: SameBelow(t, r, cs[i])
    ensures Forest(t, w, lo, cs) == Forest(r, w, lo, cs)
    decreases if lo < |t.errs| then |t.errs| - lo else 0, |cs| + 1
  {
    if cs != [] {
      SubtreeLocal(t, r, w, cs[0]);
      ForestLocal(t, r, w, lo, cs[1..]);
    }
  }

  lemma {:induction false} SubtreeMembers(t: Tree, w: World, c: nat, y: nat)
    requires WellFormed(t) && w.Fair() && y in Subtree(t, w, c)
    ensures t.Live(y) && Descends(t, c, y)
    decreases if c < |t.errs| then |t.errs| - c else 0, 0
  {
    if y != c {
      var kids := w.walk(c, t.children[c]);
      WalkWithin(t, w, c);
      var i := ForestMembers(t, w, c + 1, kids, y);
      DescendsUp(t, c, kids[i], y);
    }
  }

  lemma {:induction false} ForestMembers(t: Tree, w: World, lo: nat, cs: seq<nat>, y: nat) returns (i: nat)
    requires WellFormed(t) && w.Fair() && Within(t, lo, cs) && y in Forest(t, w, lo, cs)
    ensures i < |cs| && t.Live(y) && Descends(t, cs[i], y)
    decreases if lo < |t.errs| then |t.errs| - lo else 0, |cs| + 1
  {
    if y in Subtree(t, w, cs[0]) {
      SubtreeMembers(t, w, cs[0], y);
      i := 0;
    } else {
      i := ForestMembers(t, w, lo, cs[1..], y);
      i := i + 1;
    }
  }

  /** `r` is `t` with exactly the listed contexts cancelled, in that order. */
  ghost predicate Exactly(t: Tree, r: Tree, list: seq<nat>, e: Err) {
    && t.Shaped() && r.Shaped() && |r.errs| == |t.errs| && r.parent == t.parent && r.connected == t.connected
    && r.closed == t.closed + list
    && (forall x: nat | x < |t.errs| :: r.errs[x] == if x in list then Some(e) else t.errs[x])
    && (forall x: nat | x < |t.errs| :: r.children[x] == if x in list then [] else t.children[x])
  }

  lemma ExactlyThen(t: Tree, m: Tree, r: Tree, a: seq<nat>, b: seq<nat>, e: Err)
    requires Exactly(t, m, a, e) && Exactly(m, r, b, e)
    ensures Exactly(t, r, a + b, e)
  {}

  /** No callback is pending on any Done channel. */
  ghost predicate NoCallbacks(w: World) {
    forall c: nat :: w.callbacks(c) == []
  }

  /** Cancelling one subtree leaves everything below another context of the family alone. */
  lemma SiblingUntouched(t: Tree, r: Tree, w: World, p: nat, a: nat, b: nat, e: Err)
    requires WellFormed(t) && WellFormed(r) && w.Fair() && Child(t, p, a) && Child(t, p, b) && a != b
    requires Exactly(t, r, Subtree(t, w, a), e)
    ensures SameBelow(t, r, b)
  {
    forall y: nat | y < |t.errs| && Descends(t, b, y)
      ensures t.errs[y] == r.errs[y] && t.children[y] == r.children[y]
    {
      if y in Subtree(t, w, a) {
        SubtreeMembers(t, w, a, y);
        SiblingsDisjoint(t, p, a, b, y);
      }
    }
  }

  lemma DetachedClose(t: Tree, c: nat, e: Err)
    requires WellFormed(t) && t.Live(c)
    ensures var d := Detach(Close(t, c, e), c); WellFormed(d) && Exactly(t, d, [c], e)
  {
    CloseEffect(t, c, e);
    DetachEffect(Close(t, c, e), c);
  }

  /** Closing a context and taking its list away leaves everything below its children alone. */
  lemma KidsUntouched(t: Tree, w: World, c: nat, e: Err)
    requires WellFormed(t) && w.Fair() && t.Live(c)
    ensures var d := Detach(Close(t, c, e), c);
            var kids := w.walk(c, t.children[c]);
            && WellFormed(d) && Siblings(d, c, kids) && Within(d, c + 1, kids) && Within(t, c + 1, kids)
            && Distinct(kids)
            && Forest(d, w, c + 1, kids) == Forest(t, w, c + 1, kids)
  {
    var d := Detach(Close(t, c, e), c);
    var kids := w.walk(c, t.children[c]);
    DetachedClose(t, c, e);
    WalkWithin(t, w, c);
    forall i | 0 <= i < |kids| ensures SameBelow(t, d, kids[i]) && Child(d, c, kids[i]) {
      assert Child(t, c, kids[i]);
      forall y: nat | y < |t.errs| && Descends(t, kids[i], y)
        ensures t.errs[y] == d.errs[y] && t.children[y] == d.children[y]
      {
        DescendsGrows(t, kids[i], y);
      }
    }
    ForestLocal(t, d, w, c + 1, kids);
  }

  /** Cancelling the first of several children leaves the others' forest as it was. */
  lemma RestUntouched(t: Tree, r: Tree, w: World, p: nat, cs: seq<nat>, e: Err)
    requires WellFormed(t) && WellFormed(r) && w.Fair() && cs != [] && Distinct(cs) && Siblings(t, p, cs)
    requires Within(t, p + 1, cs) && Exactly(t, r, Subtree(t, w, cs[0]), e)
    ensures Siblings(r, p, cs[1..]) && Within(r, p + 1, cs[1..])
    ensures Forest(t, w, p + 1, cs[1..]) == Forest(r, w, p + 1, cs[1..])
  {
    var rest := cs[1..];
    forall i | 0 <= i < |rest| ensures SameBelow(t, r, rest[i]) && Child(r, p, rest[i]) {
      assert Child(t, p, cs[i + 1]);
      SiblingUntouched(t, r, w, p, cs[0], rest[i], e);
    }
    ForestLocal(t, r, w, p + 1, rest);
  }

  lemma {:induction false} CancelExact(t: Tree, w: World, c: nat, e: Err)
    requires WellFormed(t) && w.Fair() && NoCallbacks(w)
    ensures Exactly(t, Cancel(t, w, c, false, e), Subtree(t, w, c), e)
    decreases CountLive(t.errs), 0
  {
    if t.Live(c) {
      var d := Detach(Close(t, c, e), c);
      var kids := w.walk(c, t.children[c]);
      DetachedClose(t, c, e);
      KidsUntouched(t, w, c, e);
      ForestExact(d, w, c, kids, e);
      ExactlyThen(t, d, CancelAll(d, w, kids, false, e), [c], Forest(d, w, c + 1, kids), e);
    }
  }

  lemma {:induction false} ForestExact(t: Tree, w: World, p: nat, cs: seq<nat>, e: Err)
    requires WellFormed(t) && w.Fair() && NoCallbacks(w) && Distinct(cs) && Siblings(t, p, cs) && Within(t, p + 1, cs)
    ensures Exactly(t, CancelAll(t, w, cs, false, e), Forest(t, w, p + 1, cs), e)
    decreases CountLive(t.errs), |cs| + 1
  {
    if cs != [] {
      var r := Cancel(t, w, cs[0], false, e);
      CancelExact(t, w, cs[0], e);
      CancelAdvances(t, w, cs[0], false, e);
      RestUntouched(t, r, w, p, cs, e);
      ForestExact(r, w, p, cs[1..], e);
      ExactlyThen(t, r, CancelAll(r, w, cs[1..], false, e), Subtree(t, w, cs[0]), Forest(t, w, p + 1, cs[1..]), e);
    }
  }

  lemma {:induction false} SubtreeClosed(t: Tree, w: World, c: nat, x: nat, y: nat)
    requires WellFormed(t) && w.Fair() && x < |t.errs| && x in Subtree(t, w, c) && y in t.children[x] && t.Live(y)
    ensures y in Subtree(t, w, c)
    decreases if c < |t.errs| then |t.errs| - c else 0, 0
  {
    WalkWithin(t, w, c);
    if x == c {
      WalkMembers(w, c, t.children[c]);
      InForest(t, w, c + 1, w.walk(c, t.children[c]), y);
    } else {
      ForestClosed(t, w, c + 1, w.walk(c, t.children[c]), x, y);
    }
  }

  lemma {:induction false} InForest(t: Tree, w: World, lo: nat, cs: seq<nat>, y: nat)
    requires WellFormed(t) && w.Fair() && Within(t, lo, cs) && y in cs && t.Live(y)
    ensures y in Forest(t, w, lo, cs)
    decreases |cs|
  {
    if cs[0] != y {
      InForest(t, w, lo, cs[1..], y);
    } else {
      assert y in Subtree(t, w, y);
    }
  }

  lemma {:induction false} ForestClosed(t: Tree, w: World, lo: nat, cs: seq<nat>, x: nat, y: nat)
    requires WellFormed(t) && w.Fair() && Within(t, lo, cs)
    requires x in Forest(t, w, lo, cs) && x < |t.errs| && y in t.children[x] && t.Live(y)
    ensures y in Forest(t, w, lo, cs)
    decreases if lo < |t.errs| then |t.errs| - lo else 0, |cs| + 1
  {
    if x in Subtree(t, w, cs[0]) {
      SubtreeClosed(t, w, cs[0], x, y);
    } else {
      ForestClosed(t, w, lo, cs[1..], x, y);
    }
  }

  lemma {:induction false} LiveDescendantsListed(t: Tree, w: World, c: nat, y: nat)
    requires TreeInv(t) && w.Fair() && t.Live(c) && t.Live(y) && Descends(t, c, y)
    ensures y in Subtree(t, w, c)
    decreases y
  {
    if y != c {
      var p := t.parent[y].value;
      assert Child(t, p, y);
      assert t.errs[p].None? && Complete(t, p);
      LiveDescendantsListed(t, w, c, p);
      SubtreeClosed(t, w, c, p, y);
    }
  }

  lemma SubtreeIff(t: Tree, w: World, c: nat, y: nat)
    requires TreeInv(t) && w.Fair() && t.Live(c) && y < |t.errs|
    ensures y in Subtree(t, w, c) <==> t.Live(y) && Descends(t, c, y)
  {
    if y in Subtree(t, w, c) {
      SubtreeMembers(t, w, c, y);
    } else if t.Live(y) && Descends(t, c, y) {
      LiveDescendantsListed(t, w, c, y);
    }
  }

  /** Cancelling a live context with no callbacks pending, in whatever order children are walked: exactly
      its live descendants get the error, and their channels close in depth-first order, each once. */
  lemma CancelClosesSubtree(t: Tree, w: World, c: nat, removeFromParent: bool, e: Err)
    requires TreeInv(t) && w.Fair() && NoCallbacks(w) && t.Live(c)
    ensures var r := Cancel(t, w, c, removeFromParent, e);
            && TreeInv(r) && r.closed == t.closed + Subtree(t, w, c)
            && (forall y: nat | y < |t.errs| ::
                  && (y in Subtree(t, w, c) <==> t.Live(y) && Descends(t, c, y))
                  && r.errs[y] == if t.Live(y) && Descends(t, c, y) then Some(e) else t.errs[y])
  {
    var r, kept := Cancel(t, w, c, removeFromParent, e), Cancel(t, w, c, false, e);
    CancelAdvances(t, w, c, removeFromParent, e);
    AdvancesKeeps(t, r);
    CancelExact(t, w, c, e);
    assert r.errs == kept.errs && r.closed == kept.closed;
    forall y: nat | y < |t.errs| ensures y in Subtree(t, w, c) <==> t.Live(y) && Descends(t, c, y) {
      SubtreeIff(t, w, c, y);
    }
  }

  /** Ordered cancellation walks the list as it is. */
  ghost predicate WalksInOrder(w: World) {
    forall c: nat, kids: seq<nat> :: w.walk(c, kids) == kids
  }

  /** The preorder of the tree with children as they were made, without a walk. */
  ghost function Preorder(t: Tree, c: nat): seq<nat>
    requires WellFormed(t)
    decreases if c < |t.errs| then |t.errs| - c else 0, 0
  {
    if !t.Live(c) then [] else
      assert Within(t, c + 1, t.children[c]) by {
        forall i | 0 <= i < |t.children[c]| ensures c + 1 <= t.children[c][i] < |t.errs| {
          assert t.children[c][i] in t.children[c] && Child(t, c, t.children[c][i]);
        }
      }
      [c] + Preorders(t, c + 1, t.children[c])
  }

  ghost function Preorders(t: Tree, lo: nat, cs: seq<nat>): seq<nat>
    requires WellFormed(t) && Within(t, lo, cs)
    decreases if lo < |t.errs| then |t.errs| - lo else 0, |cs| + 1
  {
    if cs == [] then [] else Preorder(t, cs[0]) + Preorders(t, lo, cs[1..])
  }

  /** With ordered cancellation the channels close in depth-first creation order. */
  lemma {:induction false} OrderedSubtree(t: Tree, w: World, c: nat)
    requires WellFormed(t) && w.Fair() && WalksInOrder(w)
    ensures Subtree(t, w, c) == Preorder(t, c)
    decreases if c < |t.errs| then |t.errs| - c else 0, 0
  {
    if t.Live(c) {
      WalkWithin(t, w, c);
      assert w.walk(c, t.children[c]) == t.children[c];
      OrderedForest(t, w, c + 1, t.children[c]);
    }
  }

  lemma {:induction false} OrderedForest(t: Tree, w: World, lo: nat, cs: seq<nat>)
    requires WellFormed(t) && w.Fair() && WalksInOrder(w) && Within(t, lo, cs)
    ensures Forest(t, w, lo, cs) == Preorders(t, lo, cs)
    decreases if lo < |t.errs| then |t.errs| - lo else 0, |cs| + 1
  {
    if cs != [] {
      OrderedSubtree(t, w, cs[0]);
      OrderedForest(t, w, lo, cs[1..]);
    }
  }
}
