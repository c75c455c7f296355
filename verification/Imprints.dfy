/** Spacetime imprints: a bounded queue of rooms kept in a fixed array, with -1 for an unused place. */
module Imprints {
  const MAX_IMPRINT_ROOMS := 6

  /** The rooms remembered, newest first: the entries before the first unused one. */
  function Rooms(a: seq<int>): (r: seq<int>)
    ensures |r| <= |a| && r == a[..|r|]
    ensures forall i | 0 <= i < |r| :: r[i] >= 0
    ensures |r| < |a| ==> a[|r|] < 0
  {
    if a == [] || a[0] < 0 then [] else [a[0]] + Rooms(a[1..])
  }

  /** Every used entry comes before every unused one. */
  predicate Packed(a: seq<int>) {
    forall i, j | 0 <= i < j < |a| :: a[i] < 0 ==> a[j] < 0
  }

  lemma {:induction false} RoomsAre(a: seq<int>, n: nat)
    requires n <= |a| && (forall i | 0 <= i < n :: a[i] >= 0) && (n < |a| ==> a[n] < 0)
    ensures Rooms(a) == a[..n]
    decreases n
  {
    if n > 0 {
      RoomsAre(a[1..], n - 1);
      assert a[..n] == [a[0]] + a[1..][..n - 1];
    }
  }

  /** The newest entries of a queue, as many as may be kept. */
  function Newest(q: seq<int>, max: nat): seq<int> {
    if |q| <= max then q else q[..max]
  }

  // ---------- Runs ----------

  datatype Op = Push(room: nat, max: nat) | Pop

  /** The queue after an operation: a push keeps the newest, a pop takes the oldest. */
  function Limit(max: nat): nat {
    if max < MAX_IMPRINT_ROOMS then max else MAX_IMPRINT_ROOMS
  }

  function Step(q: seq<int>, op: Op): seq<int> {
    match op
    case Push(room, max) => Newest([room] + q, Limit(max))
    case Pop => if q == [] then [] else q[..|q| - 1]
  }

  function RunOps(q: seq<int>, ops: seq<Op>): seq<int> {
    if ops == [] then q else Step(RunOps(q, ops[..|ops| - 1]), ops[|ops| - 1])
  }

  function Reversed(s: seq<int>): seq<int> {
    if s == [] then [] else [s[|s| - 1]] + Reversed(s[..|s| - 1])
  }

  /** The rooms pushed in a run, newest first. */
  function Pushed(ops: seq<Op>): seq<int> {
    if ops == [] then []
    else (if ops[|ops| - 1].Push? then [ops[|ops| - 1].room] else []) + Pushed(ops[..|ops| - 1])
  }

  /** The rooms that leave the queue with an operation, oldest first: taken by a pop, forgotten by a push. */
  function Leaving(q: seq<int>, op: Op): seq<int> {
    match op
    case Push(room, max) => if |q| < Limit(max) then [] else Reversed(([room] + q)[Limit(max)..])
    case Pop => if q == [] then [] else [q[|q| - 1]]
  }

  /** The rooms that leave in a run, one after the other. */
  function Left(q: seq<int>, ops: seq<Op>): seq<int> {
    if ops == [] then []
    else Left(q, ops[..|ops| - 1]) + Leaving(RunOps(q, ops[..|ops| - 1]), ops[|ops| - 1])
  }

  /** The rooms that pops take in a run; a pop of an empty queue takes none. */
  function Popped(q: seq<int>, ops: seq<Op>): seq<int> {
    if ops == [] then []
    else
      Popped(q, ops[..|ops| - 1])
      + if ops[|ops| - 1].Pop? then Leaving(RunOps(q, ops[..|ops| - 1]), Pop) else []
  }

  lemma {:induction false} ReversedConcat(s: seq<int>, t: seq<int>)
    ensures Reversed(s + t) == Reversed(t) + Reversed(s)
    decreases |t|
  {
    if t == [] {
      assert s + t == s;
    } else {
      assert (s + t)[..|s + t| - 1] == s + t[..|t| - 1];
      ReversedConcat(s, t[..|t| - 1]);
    }
  }

  lemma {:induction false} ReversedTwice(s: seq<int>)
    ensures Reversed(Reversed(s)) == s
    decreases |s|
  {
    if s != [] {
      var front, last := s[..|s| - 1], s[|s| - 1];
      ReversedTwice(front);
      ReversedConcat([last], Reversed(front));
      assert Reversed([last]) == [last];
    }
  }

  lemma Assoc(a: seq<int>, b: seq<int>, c: seq<int>)
    ensures a + b + c == a + (b + c)
  {
  }

  /** What is in front of an operation is what it keeps followed by what leaves. */
  lemma StepLeaves(q: seq<int>, op: Op)
    ensures Step(q, op) + Reversed(Leaving(q, op)) == (if op.Push? then [op.room as int] + q else q)
  {
    match op
    case Push(room, max) =>
      var all := [room] + q;
      if |all| > Limit(max) {
        ReversedTwice(all[Limit(max)..]);
        assert all == all[..Limit(max)] + all[Limit(max)..];
      }
    case Pop =>
      if q != [] {
        assert Reversed([q[|q| - 1]]) == [q[|q| - 1]];
      }
  }

  /** First in, first out, in any run with any limits: what is in the queue, followed by what has left
      it in reverse, is what was pushed, newest first, over what the queue held before. */
  lemma {:induction false} FirstInFirstOut(q: seq<int>, ops: seq<Op>)
    ensures RunOps(q, ops) + Reversed(Left(q, ops)) == Pushed(ops) + q
    decreases |ops|
  {
    if ops != [] {
      var front, last := ops[..|ops| - 1], ops[|ops| - 1];
      var before, gone := RunOps(q, front), Left(q, front);
      FirstInFirstOut(q, front);
      StepLeaves(before, last);
      ReversedConcat(gone, Leaving(before, last));
      Assoc(RunOps(q, ops), Reversed(Leaving(before, last)), Reversed(gone));
      PushedFirst(q, ops, before, Reversed(gone));
    }
  }

  lemma PushedFirst(q: seq<int>, ops: seq<Op>, before: seq<int>, gone: seq<int>)
    requires ops != [] && before + gone == Pushed(ops[..|ops| - 1]) + q
    ensures var last := ops[|ops| - 1];
      (if last.Push? then [last.room as int] + before else before) + gone == Pushed(ops) + q
  {
    var front, last := ops[..|ops| - 1], ops[|ops| - 1];
    if last.Push? {
      Assoc([last.room as int], before, gone);
      Assoc([last.room as int], Pushed(front), q);
    } else {
      assert [] + Pushed(front) == Pushed(front);
    }
  }

  /** Whatever the limits on the way, the queue is the newest of the rooms pushed over what it held. */
  lemma NewestPushed(q: seq<int>, ops: seq<Op>)
    ensures RunOps(q, ops) <= Pushed(ops) + q
  {
    FirstInFirstOut(q, ops);
  }

  /** Every push finds the queue below its limit. */
  predicate RoomForAll(q: seq<int>, ops: seq<Op>)
    decreases |ops|
  {
    ops != [] ==>
      var front, last := ops[..|ops| - 1], ops[|ops| - 1];
      RoomForAll(q, front) && (last.Push? ==> |RunOps(q, front)| < Limit(last.max))
  }

  lemma {:induction false} OnlyPopsLeave(q: seq<int>, ops: seq<Op>)
    requires RoomForAll(q, ops)
    ensures Popped(q, ops) == Left(q, ops)
    decreases |ops|
  {
    if ops != [] {
      OnlyPopsLeave(q, ops[..|ops| - 1]);
    }
  }

  /** As long as no push finds the queue full, nothing is lost: what has been popped is the oldest of
      what was pushed, in the order in which it was pushed. */
  lemma NothingLost(q: seq<int>, ops: seq<Op>)
    requires RoomForAll(q, ops)
    ensures RunOps(q, ops) + Reversed(Popped(q, ops)) == Pushed(ops) + q
  {
    FirstInFirstOut(q, ops);
    OnlyPopsLeave(q, ops);
  }

  // ---------- The array ----------

  class Physic {
    const imprintRooms: array<int>

    ghost predicate Valid()
      reads imprintRooms
    {
      imprintRooms.Length == MAX_IMPRINT_ROOMS && Packed(imprintRooms[..])
    }

    ghost function Queue(): seq<int>
      reads imprintRooms
    {
      Rooms(imprintRooms[..])
    }

    constructor ()
      ensures Valid() && Queue() == [] && fresh(imprintRooms)
    {
      imprintRooms := new int[MAX_IMPRINT_ROOMS](i => -1);
    }

    /** Remembers a room in front of the others, which move up; those from max on are forgotten. */
    method PushImprint(room: nat, max: nat)
      requires Valid()
      modifies imprintRooms
      ensures Valid() && Queue() == Step(old(Queue()), Push(room, max))
    {
      ghost var was, q := imprintRooms[..], Queue();
      var tmp := new int[MAX_IMPRINT_ROOMS](
        i requires 0 <= i < MAX_IMPRINT_ROOMS reads this, imprintRooms => imprintRooms[i]);
      imprintRooms[0] := room;
      for i := 1 to MAX_IMPRINT_ROOMS
        invariant imprintRooms[0] == room
        invariant forall k | 1 <= k < i :: imprintRooms[k] == was[k - 1]
        invariant forall k | 0 <= k < MAX_IMPRINT_ROOMS :: tmp[k] == was[k]
      {
        imprintRooms[i] := tmp[i - 1];
      }
      var i := max;
      while i < MAX_IMPRINT_ROOMS
        invariant max <= i && (i == max || i <= MAX_IMPRINT_ROOMS)
        invariant forall k | 0 <= k < MAX_IMPRINT_ROOMS ::
          imprintRooms[k] == if max <= k < i then -1 else if k == 0 then room else was[k - 1]
      {
        imprintRooms[i] := -1;
        i := i + 1;
      }
      PushedRooms(was, imprintRooms[..], room, max);
    }

    /** Takes the oldest room, or yields -1. */
    method PopImprint() returns (r: int)
      requires Valid()
      modifies imprintRooms
      ensures Valid() && Queue() == Step(old(Queue()), Pop)
      ensures r == if old(Queue()) == [] then -1 else old(Queue())[|old(Queue())| - 1]
    {
      ghost var was := imprintRooms[..];
      r := -1;
      var i := MAX_IMPRINT_ROOMS - 1;
      while i >= 0 && imprintRooms[i] < 0
        invariant -1 <= i < MAX_IMPRINT_ROOMS && imprintRooms[..] == was
        invariant forall k | i < k < MAX_IMPRINT_ROOMS :: was[k] < 0
      {
        i := i - 1;
      }
      if i >= 0 {
        RoomsAre(was, i + 1);
        r := imprintRooms[i];
        imprintRooms[i] := -1;
        RoomsAre(imprintRooms[..], i);
      }
    }
  }

  lemma PushedRooms(was: seq<int>, now: seq<int>, room: nat, max: nat)
    requires |was| == |now| == MAX_IMPRINT_ROOMS && Packed(was)
    requires forall k | 0 <= k < MAX_IMPRINT_ROOMS ::
      now[k] == if max <= k then -1 else if k == 0 then room else was[k - 1]
    ensures Packed(now) && Rooms(now) == Step(Rooms(was), Push(room, max))
  {
    var q := Rooms(was);
    var limit := Limit(max);
    var n := if |q| + 1 < limit then |q| + 1 else limit;
    forall k | 0 <= k < n ensures now[k] >= 0 && now[k] == ([room] + q)[k] {
      if k > 0 {
        assert was[k - 1] == q[k - 1];
      }
    }
    RoomsAre(now, n);
  }
}
