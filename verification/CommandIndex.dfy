/** The two indexes of `commandsHelper`, a list of pointers and a map from command IDs, and what
    editing them does to the list of machines they stand for. */
module CommandIndex {
  import opened CommandMachine
  import opened HelperState

  /** The machines that a list of pointers stands for. */
  ghost function Resolve(ptrs: seq<nat>, objects: map<nat, Machine>): seq<Machine>
    requires forall p | p in ptrs :: p in objects
  {
    seq(|ptrs|, i requires 0 <= i < |ptrs| => assert ptrs[i] in ptrs; objects[ptrs[i]])
  }

  /** `list.Remove`. */
  function Unlink(ptrs: seq<nat>, p: nat): seq<nat> {
    if ptrs == [] then [] else if ptrs[0] == p then ptrs[1..] else [ptrs[0]] + Unlink(ptrs[1..], p)
  }

  lemma {:induction false} UnlinkAt(ptrs: seq<nat>, i: nat)
    requires i < |ptrs| && forall j | 0 <= j < i :: ptrs[j] != ptrs[i]
    ensures Unlink(ptrs, ptrs[i]) == ptrs[..i] + ptrs[i + 1..]
  {
    if i != 0 {
      UnlinkAt(ptrs[1..], i - 1);
    }
  }

  ghost predicate NoDuplicates(s: seq<nat>) {
    forall i, j | 0 <= i < j < |s| :: s[i] != s[j]
  }

  /** The ordered list and the map hold the same machines, one per command ID. */
  ghost predicate Agree(objects: map<nat, Machine>, ordered: seq<nat>, commands: map<CommandID, nat>, n: nat) {
    && (forall p | p in objects :: objects[p].serial == p < n)
    && (forall p | p in ordered :: p in objects && objects[p].id in commands && commands[objects[p].id] == p)
    && NoDuplicates(ordered)
    && (forall id | id in commands :: commands[id] in ordered && objects[commands[id]].id == id)
    && Cancelations(objects, ordered)
  }

  /** Pointers to cancel requests are valid, and a cancel request outside the list has completed. */
  ghost predicate Cancelations(objects: map<nat, Machine>, ordered: seq<nat>) {
    && (forall p | p in objects && objects[p].cancelation.Some? ::
          objects[p].cancelation.value in objects
          && objects[objects[p].cancelation.value].id.ctype == CancelNexusType)
    && (forall p | p in objects && p !in ordered && objects[p].id.ctype == CancelNexusType ::
          objects[p].state == Completed)
  }

  lemma AgreeUpdate(objects: map<nat, Machine>, ordered: seq<nat>, commands: map<CommandID, nat>, n: nat, i: nat,
                    m: Machine)
    requires Agree(objects, ordered, commands, n) && i < |ordered|
    requires m.id == objects[ordered[i]].id && m.serial == ordered[i]
    requires m.cancelation.Some? ==> m.cancelation.value in objects
                                     && objects[m.cancelation.value].id.ctype == CancelNexusType
    ensures Agree(objects[ordered[i] := m], ordered, commands, n)
    ensures Resolve(ordered, objects[ordered[i] := m]) == Resolve(ordered, objects)[i := m]
  {
  }

  lemma AgreeRemove(objects: map<nat, Machine>, ordered: seq<nat>, commands: map<CommandID, nat>, n: nat, i: nat)
    requires Agree(objects, ordered, commands, n) && i < |ordered|
    requires objects[ordered[i]].id.ctype == CancelNexusType ==> objects[ordered[i]].state == Completed
    ensures Unlink(ordered, ordered[i]) == ordered[..i] + ordered[i + 1..]
    ensures Agree(objects, Unlink(ordered, ordered[i]), commands - {objects[ordered[i]].id}, n)
    ensures Resolve(Unlink(ordered, ordered[i]), objects) == RemoveAt(Resolve(ordered, objects), i)
    ensures ordered[i] !in Unlink(ordered, ordered[i])
  {
    var r := Unlink(ordered, ordered[i]);
    UnlinkMembers(ordered, i);
    AgreeWithout(objects, ordered, r, commands, n, ordered[i]);
    ResolveCut(ordered, objects, i);
  }

  lemma AgreeWithout(objects: map<nat, Machine>, ordered: seq<nat>, r: seq<nat>, commands: map<CommandID, nat>,
                     n: nat, p: nat)
    requires Agree(objects, ordered, commands, n) && p in ordered && NoDuplicates(r)
    requires forall q :: q in r <==> q in ordered && q != p
    requires objects[p].id.ctype == CancelNexusType ==> objects[p].state == Completed
    ensures Agree(objects, r, commands - {objects[p].id}, n)
  {
    var commands' := commands - {objects[p].id};
    forall q | q in r ensures q in objects && objects[q].id in commands' && commands'[objects[q].id] == q {
      assert q in ordered;
    }
    forall id | id in commands' ensures commands'[id] in r && objects[commands'[id]].id == id {
      assert commands[id] in ordered;
    }
  }

  lemma ResolveCut(ordered: seq<nat>, objects: map<nat, Machine>, i: nat)
    requires i < |ordered| && forall p | p in ordered :: p in objects
    ensures forall p | p in ordered[..i] + ordered[i + 1..] :: p in objects
    ensures Resolve(ordered[..i] + ordered[i + 1..], objects) == RemoveAt(Resolve(ordered, objects), i)
  {
  }

  lemma UnlinkMembers(ordered: seq<nat>, i: nat)
    requires i < |ordered| && NoDuplicates(ordered)
    ensures var r := Unlink(ordered, ordered[i]);
            && r == ordered[..i] + ordered[i + 1..] && NoDuplicates(r)
            && (forall q :: q in r <==> q in ordered && q != ordered[i])
  {
    UnlinkAt(ordered, i);
    CutMembers(ordered, i);
  }

  lemma CutMembers(ordered: seq<nat>, i: nat)
    requires i < |ordered| && NoDuplicates(ordered)
    ensures var r := ordered[..i] + ordered[i + 1..];
            NoDuplicates(r) && (forall q :: q in r <==> q in ordered && q != ordered[i])
  {
    var r := ordered[..i] + ordered[i + 1..];
    forall q ensures q in r <==> q in ordered && q != ordered[i] {
      if q in ordered && q != ordered[i] {
        var j :| 0 <= j < |ordered| && ordered[j] == q;
        assert r[if j < i then j else j - 1] == q;
      }
    }
  }

  lemma AgreeAppend(objects: map<nat, Machine>, ordered: seq<nat>, commands: map<CommandID, nat>, n: nat, m: Machine)
    requires Agree(objects, ordered, commands, n) && m.serial == n && m.id !in commands && m.cancelation.None?
    ensures Agree(objects[n := m], ordered + [n], commands[m.id := n], n + 1)
    ensures Resolve(ordered + [n], objects[n := m]) == Resolve(ordered, objects) + [m]
  {
    var ordered' := ordered + [n];
    assert forall p :: p in ordered' <==> p in ordered || p == n;
    assert NoDuplicates(ordered') by {
      forall i | 0 <= i < |ordered| ensures ordered[i] != n {
        assert ordered[i] in ordered;
      }
    }
  }

  lemma SameMembersAgree(objects: map<nat, Machine>, ordered: seq<nat>, r: seq<nat>, commands: map<CommandID, nat>,
                         n: nat)
    requires Agree(objects, ordered, commands, n) && NoDuplicates(r) && forall q :: q in r <==> q in ordered
    ensures Agree(objects, r, commands, n)
  {
  }

  lemma AgreeBack(objects: map<nat, Machine>, ordered: seq<nat>, commands: map<CommandID, nat>, n: nat, i: nat)
    requires Agree(objects, ordered, commands, n) && i < |ordered|
    ensures var p := ordered[i];
            && Agree(objects, Unlink(ordered, p) + [p], commands, n)
            && Resolve(Unlink(ordered, p) + [p], objects) == RemoveAt(Resolve(ordered, objects), i) + [objects[p]]
  {
    RotateMembers(ordered, i);
    SameMembersAgree(objects, ordered, Unlink(ordered, ordered[i]) + [ordered[i]], commands, n);
    UnlinkAt(ordered, i);
    ResolveCut(ordered, objects, i);
    ResolveSnoc(ordered[..i] + ordered[i + 1..], ordered[i], objects);
  }

  lemma RotateMembers(ordered: seq<nat>, i: nat)
    requires i < |ordered| && NoDuplicates(ordered)
    ensures var r := Unlink(ordered, ordered[i]) + [ordered[i]];
            NoDuplicates(r) && forall q :: q in r <==> q in ordered
  {
    UnlinkMembers(ordered, i);
    var r := Unlink(ordered, ordered[i]);
    forall j | 0 <= j < |r| ensures r[j] != ordered[i] {
      assert r[j] in r;
    }
  }

  lemma ResolveSnoc(ptrs: seq<nat>, p: nat, objects: map<nat, Machine>)
    requires p in objects && forall q | q in ptrs :: q in objects
    ensures Resolve(ptrs + [p], objects) == Resolve(ptrs, objects) + [objects[p]]
  {
  }

  lemma FindAgrees(objects: map<nat, Machine>, ordered: seq<nat>, commands: map<CommandID, nat>, n: nat, id: CommandID)
    requires Agree(objects, ordered, commands, n)
    ensures id !in commands <==> Find(Resolve(ordered, objects), id).None?
    ensures id in commands ==> ordered[Find(Resolve(ordered, objects), id).value] == commands[id]
  {
    var ms := Resolve(ordered, objects);
    assert forall i | 0 <= i < |ordered| :: ordered[i] in ordered;
    if id in commands {
      var i :| 0 <= i < |ordered| && ordered[i] == commands[id];
      assert ms[i].id == id;
    }
  }

  lemma FindSerialAgrees(objects: map<nat, Machine>, ordered: seq<nat>, commands: map<CommandID, nat>, n: nat, p: nat)
    requires Agree(objects, ordered, commands, n)
    ensures p !in ordered <==> FindSerial(Resolve(ordered, objects), p).None?
    ensures p in ordered ==> ordered[FindSerial(Resolve(ordered, objects), p).value] == p
  {
    var ms := Resolve(ordered, objects);
    assert forall i | 0 <= i < |ordered| :: ordered[i] in ordered;
    if p in ordered {
      var i :| 0 <= i < |ordered| && ordered[i] == p;
      assert ms[i].serial == p;
    }
  }

  lemma {:induction false} AfterGetAppend(a: seq<Machine>, b: seq<Machine>, mark: bool)
    ensures AfterGet(a + b, mark) == AfterGet(a, mark) + AfterGet(b, mark)
  {
    if a == [] {
      assert a + b == b;
    } else {
      assert (a + b)[0] == a[0] && (a + b)[1..] == a[1..] + b;
      AfterGetAppend(a[1..], b, mark);
    }
  }

  lemma {:induction false} CommandsSnoc(a: seq<Machine>, m: Machine)
    ensures Commands(a + [m]) == Commands(a) + (match CommandOf(m) case Some(c) => [c] case None => [])
  {
    if a == [] {
      assert a + [m] == [m] && [m][1..] == [];
    } else {
      assert (a + [m])[0] == a[0] && (a + [m])[1..] == a[1..] + [m];
      CommandsSnoc(a[1..], m);
    }
  }

  /** One round of `getCommands`: `ms` is what the first `k` machines became, then the rest. */
  lemma WalkStep(all: seq<Machine>, k: nat, ms: seq<Machine>, i: nat, mark: bool)
    requires k < |all| && ms == AfterGet(all[..k], mark) + all[k..] && i == |AfterGet(all[..k], mark)|
    ensures i < |ms| && ms[i] == all[k]
    ensures Commands(all[..k + 1]) == Commands(all[..k]) + (match CommandOf(all[k]) case Some(c) => [c] case None => [])
    ensures var m := Got(all[k], mark);
            var after := AfterGet(all[..k + 1], mark);
            if m.state != Completed then ms[i := m] == after + all[k + 1..] && |after| == i + 1
            else RemoveAt(ms, i) == after + all[k + 1..] && |after| == i
  {
    assert all[..k + 1] == all[..k] + [all[k]];
    CommandsSnoc(all[..k], all[k]);
    AfterGetAppend(all[..k], [all[k]], mark);
    assert [all[k]][1..] == [];
    var done, m := AfterGet(all[..k], mark), Got(all[k], mark);
    assert ms == done + [all[k]] + all[k + 1..];
    if m.state != Completed {
      assert AfterGet([all[k]], mark) == [m];
      assert ms[i := m] == (done + [m]) + all[k + 1..];
    } else {
      assert AfterGet([all[k]], mark) == [];
      assert RemoveAt(ms, i) == done + all[k + 1..];
    }
  }
}
