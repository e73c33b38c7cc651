/** The index of protocol messages by event ID: an in-place stable partition. */
module MessageIndex {
  datatype Message = Message(eventID: int, body: int)

  function AtMost(ms: seq<Message>, bound: int): seq<Message> {
    if ms == [] then []
    else if ms[0].eventID <= bound then [ms[0]] + AtMost(ms[1..], bound)
    else AtMost(ms[1..], bound)
  }

  function Above(ms: seq<Message>, bound: int): seq<Message> {
    if ms == [] then []
    else if ms[0].eventID > bound then [ms[0]] + Above(ms[1..], bound)
    else Above(ms[1..], bound)
  }

  lemma {:induction false} AtMostSnoc(ms: seq<Message>, m: Message, bound: int)
    ensures AtMost(ms + [m], bound) == AtMost(ms, bound) + if m.eventID <= bound then [m] else []
  {
    if ms == [] {
      assert [m][1..] == [];
    } else {
      assert (ms + [m])[1..] == ms[1..] + [m];
      AtMostSnoc(ms[1..], m, bound);
    }
  }

  lemma {:induction false} AboveSnoc(ms: seq<Message>, m: Message, bound: int)
    ensures Above(ms + [m], bound) == Above(ms, bound) + if m.eventID > bound then [m] else []
  {
    if ms == [] {
      assert [m][1..] == [];
    } else {
      assert (ms + [m])[1..] == ms[1..] + [m];
      AboveSnoc(ms[1..], m, bound);
    }
  }

  class EventMessageIndex {
    var messages: array<Message>
    var length: nat

    ghost predicate Valid()
      reads this
    {
      length <= messages.Length
    }

    ghost function Contents(): seq<Message>
      requires Valid()
      reads this, messages
    {
      messages[..length]
    }

    constructor (ms: array<Message>)
      ensures Valid() && messages == ms && Contents() == ms[..]
    {
      messages, length := ms, ms.Length;
    }

    /** `takeLTE`: keeps the later messages at the front of the same array.  The write position never
        passes the read position, so no unread message is overwritten. */
    method TakeLTE(bound: int) returns (out: seq<Message>)
      requires Valid()
      modifies this`length, messages
      ensures Valid() && messages == old(messages)
      ensures out == AtMost(old(Contents()), bound) && Contents() == Above(old(Contents()), bound)
    {
      var n := 0;
      out := [];
      ghost var all := Contents();
      for i := 0 to length
        invariant length == |all| <= messages.Length && messages == old(messages)
        invariant n <= i && out == AtMost(all[..i], bound) && messages[..n] == Above(all[..i], bound)
        invariant messages[i..length] == all[i..]
      {
        var msg := messages[i];
        assert msg == all[i..][0] && all[..i + 1] == all[..i] + [all[i]];
        AtMostSnoc(all[..i], all[i], bound);
        AboveSnoc(all[..i], all[i], bound);
        if msg.eventID > bound {
          messages[n] := msg;
          n := n + 1;
        } else {
          out := out + [msg];
        }
        assert messages[i + 1..length] == all[i + 1..];
      }
      assert all[..length] == all;
      length := n;
    }
  }

  // ---------------------------------------------------------------- several calls

  /** All messages delivered by calls with these bounds, in order, and what is left. */
  function Delivered(ms: seq<Message>, bounds: seq<int>): seq<Message>
    decreases |bounds|
  {
    if bounds == [] then [] else AtMost(ms, bounds[0]) + Delivered(Above(ms, bounds[0]), bounds[1..])
  }

  function Remaining(ms: seq<Message>, bounds: seq<int>): seq<Message>
    decreases |bounds|
  {
    if bounds == [] then ms else Remaining(Above(ms, bounds[0]), bounds[1..])
  }

  function Largest(bounds: seq<int>): int
    requires bounds != []
  {
    if |bounds| == 1 then bounds[0]
    else if bounds[0] >= Largest(bounds[1..]) then bounds[0] else Largest(bounds[1..])
  }

  /** The messages with one event ID, in order. */
  function WithID(ms: seq<Message>, id: int): seq<Message> {
    if ms == [] then []
    else if ms[0].eventID == id then [ms[0]] + WithID(ms[1..], id)
    else WithID(ms[1..], id)
  }

  lemma {:induction false} WithIDConcat(a: seq<Message>, b: seq<Message>, id: int)
    ensures WithID(a + b, id) == WithID(a, id) + WithID(b, id)
  {
    if a == [] {
      assert a + b == b;
    } else {
      assert (a + b)[1..] == a[1..] + b;
      WithIDConcat(a[1..], b, id);
    }
  }

  lemma {:induction false} WithIDParts(ms: seq<Message>, bound: int, id: int)
    ensures WithID(AtMost(ms, bound), id) == if id <= bound then WithID(ms, id) else []
    ensures WithID(Above(ms, bound), id) == if id > bound then WithID(ms, id) else []
  {
    if ms != [] {
      WithIDParts(ms[1..], bound, id);
      var low, high := AtMost(ms[1..], bound), Above(ms[1..], bound);
      assert ([ms[0]] + low)[1..] == low && ([ms[0]] + high)[1..] == high;
    }
  }

  lemma {:induction false} AboveAbove(ms: seq<Message>, a: int, b: int)
    ensures Above(Above(ms, a), b) == Above(ms, if a >= b then a else b)
  {
    if ms != [] {
      AboveAbove(ms[1..], a, b);
      if ms[0].eventID > a {
        assert Above(ms, a)[1..] == Above(ms[1..], a);
      } else {
        assert Above(ms, a) == Above(ms[1..], a);
      }
    }
  }

  /** Any calls leave exactly the messages above the largest bound, and deliver every other message
      once, those of one event ID in their original order. */
  lemma {:induction false} EachMessageOnce(ms: seq<Message>, bounds: seq<int>, id: int)
    requires bounds != []
    ensures Remaining(ms, bounds) == Above(ms, Largest(bounds))
    ensures WithID(Delivered(ms, bounds), id) == if id <= Largest(bounds) then WithID(ms, id) else []
    decreases |bounds|
  {
    var rest := Above(ms, bounds[0]);
    WithIDParts(ms, bounds[0], id);
    WithIDConcat(AtMost(ms, bounds[0]), Delivered(rest, bounds[1..]), id);
    if |bounds| == 1 {
      assert Delivered(rest, bounds[1..]) == [];
    } else {
      EachMessageOnce(rest, bounds[1..], id);
      AboveAbove(ms, bounds[0], Largest(bounds[1..]));
    }
  }
}
