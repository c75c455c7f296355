/** The member list of a clan: nodes linked by next pointers, sorted in place by rank. */
module ClanList {

  datatype MemberVal = MemberVal(idnum: int, rank: int, noMail: bool)

  // ---------- Lists of members ----------

  /** No member outranks one before it. */
  predicate ByRank(ms: seq<MemberVal>) {
    forall i, j | 0 <= i < j < |ms| :: ms[i].rank >= ms[j].rank
  }

  predicate DistinctIds(ms: seq<MemberVal>) {
    forall i, j | 0 <= i < j < |ms| :: ms[i].idnum != ms[j].idnum
  }

  /** Where a member of the given rank goes: before the first one of lower rank. */
  function Place(ms: seq<MemberVal>, rank: int): (p: nat)
    ensures p <= |ms|
    ensures forall i | 0 <= i < p :: ms[i].rank >= rank
    ensures p < |ms| ==> ms[p].rank < rank
  {
    if ms == [] || ms[0].rank < rank then 0 else 1 + Place(ms[1..], rank)
  }

  lemma PlaceUnique(ms: seq<MemberVal>, rank: int, p: nat)
    requires p <= |ms|
    requires forall i | 0 <= i < p :: ms[i].rank >= rank
    requires p < |ms| ==> ms[p].rank < rank
    ensures Place(ms, rank) == p
  {
  }

  function Insert(ms: seq<MemberVal>, m: MemberVal): seq<MemberVal> {
    var p := Place(ms, m.rank);
    ms[..p] + [m] + ms[p..]
  }

  /** The members inserted one after the other. */
  function SortByRank(ms: seq<MemberVal>): seq<MemberVal> {
    if ms == [] then [] else Insert(SortByRank(ms[..|ms| - 1]), ms[|ms| - 1])
  }

  /** The members of one rank, in order. */
  function OfRank(ms: seq<MemberVal>, rank: int): seq<MemberVal> {
    if ms == [] then []
    else OfRank(ms[..|ms| - 1], rank) + if ms[|ms| - 1].rank == rank then [ms[|ms| - 1]] else []
  }

  lemma OfRankLast(ms: seq<MemberVal>, last: MemberVal, rank: int)
    ensures OfRank(ms + [last], rank) == if last.rank == rank then OfRank(ms, rank) + [last] else OfRank(ms, rank)
  {
    assert (ms + [last])[..|ms|] == ms;
    if last.rank != rank {
      assert OfRank(ms, rank) + [] == OfRank(ms, rank);
    }
  }

  lemma {:induction false} OfRankConcat(a: seq<MemberVal>, b: seq<MemberVal>, rank: int)
    ensures OfRank(a + b, rank) == OfRank(a, rank) + OfRank(b, rank)
    decreases |b|
  {
    if b == [] {
      assert a + b == a && OfRank(a, rank) + [] == OfRank(a, rank);
    } else {
      var b', last := b[..|b| - 1], b[|b| - 1];
      assert b == b' + [last] && a + b == a + b' + [last];
      OfRankConcat(a, b', rank);
      OfRankLast(b', last, rank);
      OfRankLast(a + b', last, rank);
    }
  }

  lemma {:induction false} OfLowerRanks(ms: seq<MemberVal>, rank: int)
    requires forall i | 0 <= i < |ms| :: ms[i].rank < rank
    ensures OfRank(ms, rank) == []
    decreases |ms|
  {
    if ms != [] {
      OfLowerRanks(ms[..|ms| - 1], rank);
    }
  }

  lemma InsertSorted(ms: seq<MemberVal>, m: MemberVal)
    requires ByRank(ms)
    ensures ByRank(Insert(ms, m))
  {
    var p, r := Place(ms, m.rank), Insert(ms, m);
    assert forall i | 0 <= i < |r| :: r[i] == if i < p then ms[i] else if i == p then m else ms[i - 1];
    forall i, j | 0 <= i < j < |r| ensures r[i].rank >= r[j].rank {
      if i == p && j > p {
        assert ms[p].rank >= ms[j - 1].rank;
      }
    }
  }

  lemma InsertSame(ms: seq<MemberVal>, m: MemberVal)
    ensures multiset(Insert(ms, m)) == multiset(ms) + multiset{m}
  {
    var p := Place(ms, m.rank);
    assert ms == ms[..p] + ms[p..];
  }

  /** Among its equals a member comes last, if all behind it are of lower rank. */
  lemma OfRankBetween(high: seq<MemberVal>, m: MemberVal, low: seq<MemberVal>, rank: int)
    requires forall i | 0 <= i < |low| :: low[i].rank < m.rank
    ensures OfRank(high + [m] + low, rank) == OfRank(high + low + [m], rank)
  {
    OfRankConcat(high, low, rank);
    OfRankConcat(high + [m], low, rank);
    OfRankLast(high, m, rank);
    OfRankLast(high + low, m, rank);
    if rank == m.rank {
      OfLowerRanks(low, rank);
      assert OfRank(high, rank) + [] == OfRank(high, rank);
      assert OfRank(high, rank) + [m] + [] == OfRank(high, rank) + [m];
    }
  }

  lemma LowerBehind(ms: seq<MemberVal>, rank: int)
    requires ByRank(ms)
    ensures var low := ms[Place(ms, rank)..]; forall i | 0 <= i < |low| :: low[i].rank < rank
  {
    var p := Place(ms, rank);
    forall i | p <= i < |ms| ensures ms[i].rank < rank {
      assert ms[i].rank <= ms[p].rank;
    }
  }

  lemma InsertStable(ms: seq<MemberVal>, m: MemberVal, rank: int)
    requires ByRank(ms)
    ensures OfRank(Insert(ms, m), rank) == OfRank(ms + [m], rank)
  {
    var p := Place(ms, m.rank);
    var high, low := ms[..p], ms[p..];
    LowerBehind(ms, m.rank);
    OfRankBetween(high, m, low, rank);
    assert high + low == ms;
  }

  /** Sorting keeps exactly the members and puts them in order of rank. */
  lemma {:induction false} SortCorrect(ms: seq<MemberVal>)
    ensures ByRank(SortByRank(ms)) && multiset(SortByRank(ms)) == multiset(ms)
    decreases |ms|
  {
    if ms != [] {
      var front, last := ms[..|ms| - 1], ms[|ms| - 1];
      assert ms == front + [last];
      SortCorrect(front);
      InsertSorted(SortByRank(front), last);
      InsertSame(SortByRank(front), last);
    }
  }

  /** It leaves members of the same rank in the order in which they were. */
  lemma {:induction false} SortStable(ms: seq<MemberVal>, rank: int)
    ensures OfRank(SortByRank(ms), rank) == OfRank(ms, rank)
    decreases |ms|
  {
    if ms != [] {
      var front, last := ms[..|ms| - 1], ms[|ms| - 1];
      var sorted := SortByRank(front);
      assert ms == front + [last];
      SortCorrect(front);
      SortStable(front, rank);
      InsertStable(sorted, last, rank);
      OfRankLast(front, last, rank);
      OfRankLast(sorted, last, rank);
    }
  }

  ghost predicate SameRanks(a: seq<MemberVal>, b: seq<MemberVal>) {
    forall rank :: OfRank(a, rank) == OfRank(b, rank)
  }

  lemma LastOccurs(ms: seq<MemberVal>)
    requires ms != []
    ensures OfRank(ms, ms[|ms| - 1].rank) != []
  {
  }

  lemma NoRanks(ms: seq<MemberVal>)
    requires forall rank :: OfRank(ms, rank) == []
    ensures ms == []
  {
    if ms != [] {
      LastOccurs(ms);
    }
  }

  /** There is only one stable arrangement in order of rank. */
  lemma {:induction false} SortUnique(a: seq<MemberVal>, b: seq<MemberVal>)
    requires ByRank(a) && ByRank(b) && SameRanks(a, b)
    ensures a == b
    decreases |a|
  {
    if a == [] || b == [] {
      NoRanks(if a == [] then b else a);
    } else {
      var a', x, b', y := a[..|a| - 1], a[|a| - 1], b[..|b| - 1], b[|b| - 1];
      LastSame(a, b);
      assert a == a' + [x] && b == b' + [y];
      forall rank ensures OfRank(a', rank) == OfRank(b', rank) {
        assert OfRank(a, rank) == OfRank(b, rank);
        OfRankLast(a', x, rank);
        OfRankLast(b', y, rank);
        if rank == x.rank {
          Unsnoc(OfRank(a', rank), x, OfRank(b', rank), y);
        }
      }
      SortUnique(a', b');
    }
  }

  lemma Unsnoc<T>(s: seq<T>, x: T, t: seq<T>, y: T)
    requires s + [x] == t + [y]
    ensures s == t && x == y
  {
    assert (s + [x])[|s|] == x && (t + [y])[|t|] == y;
    assert s == (s + [x])[..|s|] && t == (t + [y])[..|t|];
  }

  lemma LastSame(a: seq<MemberVal>, b: seq<MemberVal>)
    requires a != [] && b != [] && ByRank(a) && ByRank(b) && SameRanks(a, b)
    ensures a[|a| - 1] == b[|b| - 1]
  {
    var x, y := a[|a| - 1], b[|b| - 1];
    assert OfRank(a, x.rank) == OfRank(a[..|a| - 1], x.rank) + [x];
    assert OfRank(b, y.rank) == OfRank(b[..|b| - 1], y.rank) + [y];
    RankOccurs(b, x.rank);
    RankOccurs(a, y.rank);
    assert x.rank == y.rank;
    Unsnoc(OfRank(a[..|a| - 1], x.rank), x, OfRank(b[..|b| - 1], x.rank), y);
  }

  lemma RankOccurs(ms: seq<MemberVal>, rank: int)
    requires OfRank(ms, rank) != []
    ensures exists i :: 0 <= i < |ms| && ms[i].rank == rank
  {
    if ms[|ms| - 1].rank != rank {
      var front := ms[..|ms| - 1];
      RankOccurs(front, rank);
      var i :| 0 <= i < |front| && front[i].rank == rank;
      assert ms[i].rank == rank;
    }
  }

  /** The position of the first member with the given number, or the length. */
  function Find(ms: seq<MemberVal>, idnum: int): (i: nat)
    ensures i <= |ms|
    ensures i < |ms| ==> ms[i].idnum == idnum
    ensures forall j | 0 <= j < i :: ms[j].idnum != idnum
  {
    if ms == [] || ms[0].idnum == idnum then 0 else 1 + Find(ms[1..], idnum)
  }

  predicate Listed(ms: seq<MemberVal>, idnum: int) {
    Find(ms, idnum) < |ms|
  }

  function RemoveAt<T>(s: seq<T>, i: nat): seq<T>
    requires i < |s|
  {
    s[..i] + s[i + 1..]
  }

  /** Without the first member with the given number. */
  function Without(ms: seq<MemberVal>, idnum: int): seq<MemberVal> {
    if Listed(ms, idnum) then RemoveAt(ms, Find(ms, idnum)) else ms
  }

  function Clamp(m: MemberVal, top: int): MemberVal {
    if m.rank > top then m.(rank := top) else m
  }

  function ClampAll(ms: seq<MemberVal>, top: int): seq<MemberVal> {
    seq(|ms|, i requires 0 <= i < |ms| => Clamp(ms[i], top))
  }

  // ---------- Names of ranks ----------

  const NUM_CLAN_RANKS := 11

  /** No rank has a name; a name is never empty. */
  const NO_NAMES: seq<string> := ["", "", "", "", "", "", "", "", "", "", ""]

  /** The names without those of ranks above top. */
  function CutNames(names: seq<string>, top: int): (r: seq<string>)
    ensures |r| == |names|
  {
    seq(|names|, i requires 0 <= i < |names| => if i > top then "" else names[i])
  }

  // ---------- Linked nodes ----------

  class Member {
    var idnum: int
    var rank: int
    var noMail: bool
    var next: Member?

    constructor (m: MemberVal)
      ensures Value() == m && next == null
    {
      idnum, rank, noMail, next := m.idnum, m.rank, m.noMail, null;
    }

    function Value(): MemberVal
      reads this
    {
      MemberVal(idnum, rank, noMail)
    }
  }

  ghost predicate Distinct(nodes: seq<Member>) {
    forall i, j | 0 <= i < j < |nodes| :: nodes[i] != nodes[j]
  }

  /** The node at position i, or null after the last. */
  ghost function At(nodes: seq<Member>, i: nat): Member? {
    if i < |nodes| then nodes[i] else null
  }

  /** From head on, the next pointers run through nodes and end. */
  ghost predicate Linked(head: Member?, nodes: seq<Member>)
    reads nodes
  {
    && Distinct(nodes)
    && head == At(nodes, 0)
    && (forall i {:trigger nodes[i].next} | 0 <= i < |nodes| :: nodes[i].next == At(nodes, i + 1))
  }

  ghost function Values(nodes: seq<Member>): seq<MemberVal>
    reads nodes
  {
    seq(|nodes|, i requires 0 <= i < |nodes| reads nodes => nodes[i].Value())
  }

  class Clan {
    const number: int
    const password: string
    var topRank: int
    var owner: int
    var names: seq<string>
    var memberList: Member?
    ghost var nodes: seq<Member>

    ghost predicate Valid()
      reads this, nodes
    {
      Linked(memberList, nodes)
    }

    ghost function Members(): seq<MemberVal>
      reads this, nodes
    {
      Values(nodes)
    }

    constructor (number: int, password: string)
      ensures Valid() && nodes == [] && Members() == []
      ensures this.number == number && this.password == password && topRank == 0 && owner == 0 && names == NO_NAMES
    {
      this.number, this.password, topRank, owner, names := number, password, 0, 0, NO_NAMES;
      memberList, nodes := null, [];
    }

    /** The first node with the given number, if any. */
    method RealClanMember(id: int) returns (member: Member?)
      requires Valid()
      ensures member == null <==> !Listed(Members(), id)
      ensures member != null ==> member == nodes[Find(Members(), id)]
    {
      ghost var i := 0;
      member := memberList;
      while member != null
        invariant 0 <= i <= |nodes|
        invariant member == At(nodes, i)
        invariant forall j | 0 <= j < i :: nodes[j].idnum != id
        decreases |nodes| - i
      {
        if member.idnum == id {
          FindAt(Members(), id, i);
          return;
        }
        member := member.next;
        i := i + 1;
      }
      FindAt(Members(), id, i);
    }

    method MemberCount() returns (count: nat)
      requires Valid()
      ensures count == |Members()|
    {
      count := 0;
      var member := memberList;
      while member != null
        invariant count <= |nodes|
        invariant member == At(nodes, count)
        decreases |nodes| - count
      {
        member := member.next;
        count := count + 1;
      }
    }

    /** Puts a new member in front. */
    method Prepend(m: MemberVal)
      requires Valid()
      modifies this`memberList, this`nodes
      ensures Valid() && Members() == [m] + old(Members())
      ensures |nodes| == |old(nodes)| + 1 && fresh(nodes[0]) && nodes[1..] == old(nodes)
    {
      var member := new Member(m);
      member.next := memberList;
      memberList := member;
      nodes := [member] + nodes;
      assert Values(nodes)[1..] == old(Members());
    }

    /** Unlinks a node of the list. */
    method RemoveMember(member: Member, ghost i: nat)
      requires Valid() && i < |nodes| && nodes[i] == member
      modifies this`memberList, this`nodes, nodes`next
      ensures Valid() && nodes == RemoveAt(old(nodes), i)
      ensures Members() == RemoveAt(old(Members()), i)
    {
      ghost var all, vals := nodes, Members();
      if member == memberList {
        memberList := member.next;
      } else {
        var temp := Before(member, i);
        temp.next := member.next;
      }
      RemovedLinked(memberList, all, i);
      nodes := RemoveAt(nodes, i);
      assert Members() == RemoveAt(vals, i);
    }

    /** The node in front of a node of the list that is not the first. */
    method Before(member: Member, ghost i: nat) returns (temp: Member)
      requires Valid() && 0 < i < |nodes| && nodes[i] == member
      ensures temp == nodes[i - 1]
    {
      temp := memberList;
      ghost var k := 0;
      while temp.next != member
        invariant 0 <= k < i && temp == nodes[k]
        decreases i - k
      {
        temp := temp.next;
        k := k + 1;
      }
      assert nodes[k].next == At(nodes, k + 1);
    }

    /** Lowers every rank above the top rank to it. */
    method ClampRanks(top: int)
      requires Valid()
      modifies this`topRank, nodes
      ensures Valid() && topRank == top && nodes == old(nodes) && Members() == ClampAll(old(Members()), top)
    {
      topRank := top;
      ghost var i := 0;
      var member := memberList;
      while member != null
        invariant 0 <= i <= |nodes| && Valid() && nodes == old(nodes) && topRank == top
        invariant member == At(nodes, i)
        invariant forall j | 0 <= j < i :: nodes[j].Value() == Clamp(old(nodes[j].Value()), top)
        invariant forall j | i <= j < |nodes| :: nodes[j].Value() == old(nodes[j].Value())
        decreases |nodes| - i
      {
        if member.rank > topRank {
          member.rank := topRank;
        }
        member := member.next;
        i := i + 1;
      }
      assert forall j | 0 <= j < |nodes| :: Members()[j] == Clamp(old(Members())[j], top);
    }

    /** Drops the names of ranks above the top rank. */
    method CutRankNames(top: nat)
      modifies this`names
      ensures names == CutNames(old(names), top)
    {
      var i := top + 1;
      while i < |names|
        invariant top < i && |names| == |old(names)|
        invariant forall j | 0 <= j < |names| :: names[j] == if top < j < i then "" else old(names)[j]
      {
        if names[i] != "" {
          names := names[i := ""];
        }
        i := i + 1;
      }
    }

    /** Relinks the nodes in order of rank. */
    method SortClanMembers()
      requires Valid()
      modifies this`memberList, this`nodes, nodes`next
      ensures Valid() && Members() == SortByRank(old(Members()))
      ensures multiset(nodes) == multiset(old(nodes))
    {
      var newList;
      ghost var done;
      newList, done := SortNodes(memberList, nodes);
      memberList, nodes := newList, done;
    }

    /** Relinks the nodes of a list, one after the other, into a new one. */
    static method SortNodes(list: Member?, ghost all: seq<Member>) returns (newList: Member?, ghost done: seq<Member>)
      requires Linked(list, all)
      modifies all`next
      ensures Linked(newList, done) && Values(done) == SortByRank(old(Values(all)))
      ensures multiset(done) == multiset(all) && forall q | 0 <= q < |done| :: done[q] in all
    {
      newList, done := null, [];
      ghost var vals := Values(all);
      ghost var n := 0;
      assert all[..0] == [] && vals[..0] == [];
      var i := list;
      while i != null
        invariant 0 <= n <= |all| && i == At(all, n)
        invariant Linked(newList, done) && Sorting(done, all, vals, n) && LinkedFrom(all, n)
        decreases |all| - n
      {
        var j := i.next;
        newList, done := TakeNode(newList, done, all, vals, n, i);
        n := n + 1;
        i := j;
      }
      SortedAll(done, all, vals);
    }

    /** Moves the next node of all over to the sorted list. */
    static method TakeNode(list: Member?, ghost done: seq<Member>, ghost all: seq<Member>, ghost vals: seq<MemberVal>,
                           ghost n: nat, i: Member)
      returns (newList: Member?, ghost more: seq<Member>)
      requires Linked(list, done) && Sorting(done, all, vals, n) && n < |all| && all[n] == i && LinkedFrom(all, n)
      modifies all`next
      ensures Linked(newList, more) && Sorting(more, all, vals, n + 1) && LinkedFrom(all, n + 1)
    {
      NotYetSorted(done, all, vals, n);
      SortedNodesIn(done, all, vals, n);
      ghost var p;
      newList, p := InsertNode(list, done, i);
      SortedSoFar(done, all, vals, n, p);
      more := InsertAt(done, p, i);
    }

    /** Links node i into a list behind every node that it does not outrank. */
    static method InsertNode(list: Member?, ghost done: seq<Member>, i: Member)
      returns (newList: Member?, ghost p: nat)
      requires Linked(list, done) && i !in done
      modifies i`next, done`next
      ensures p == Place(old(Values(done)), i.rank)
      ensures Linked(newList, InsertAt(done, p, i))
    {
      if list == null || list.rank < i.rank {
        PlaceUnique(Values(done), i.rank, 0);
        i.next := list;
        newList, p := i, 0;
        InsertedLinked(list, done, 0, i);
      } else {
        var k: Member := list;
        p := 1;
        while k.next != null
          invariant 0 < p <= |done| && done[p - 1] == k
          invariant forall q | 0 <= q < p :: done[q].rank >= i.rank
          decreases |done| - p
        {
          if k.next.rank < i.rank {
            break;
          }
          k := k.next;
          p := p + 1;
        }
        assert At(done, p) == k.next;
        PlaceUnique(Values(done), i.rank, p);
        i.next := k.next;
        k.next := i;
        newList := list;
        InsertedLinked(list, done, p, i);
      }
    }
  }

  /** The list with a node linked in at position p, when only the two pointers there have changed. */
  lemma InsertedLinked(list: Member?, done: seq<Member>, p: nat, i: Member)
    requires Distinct(done) && i !in done && p <= |done| && list == At(done, 0)
    requires i.next == At(done, p) && (p > 0 ==> done[p - 1].next == i)
    requires forall q {:trigger done[q].next} | 0 <= q < |done| && q + 1 != p :: done[q].next == At(done, q + 1)
    ensures Linked(if p == 0 then i else list, InsertAt(done, p, i))
  {
    var r := InsertAt(done, p, i);
    InsertedNodes(done, p, i);
    forall a, b | 0 <= a < b < |r| ensures r[a] != r[b] {
      assert r[a] == i || r[b] == i || r[a] == done[if a < p then a else a - 1];
    }
    forall q | 0 <= q < |r| ensures r[q].next == At(r, q + 1) {
      if q > p {
        assert r[q] == done[q - 1] && At(r, q + 1) == At(done, q);
      } else if q < p {
        assert r[q] == done[q];
      } else {
        assert r[q] == i && At(r, q + 1) == At(done, q);
      }
    }
  }

  /** The list without the node at position i, when only the pointer to it has changed. */
  lemma RemovedLinked(list: Member?, nodes: seq<Member>, i: nat)
    requires Distinct(nodes) && i < |nodes| && list == (if i == 0 then At(nodes, 1) else nodes[0])
    requires i > 0 ==> nodes[i - 1].next == At(nodes, i + 1)
    requires forall q {:trigger nodes[q].next} | 0 <= q < |nodes| && q + 1 != i :: nodes[q].next == At(nodes, q + 1)
    ensures Linked(list, RemoveAt(nodes, i))
  {
    var r := RemoveAt(nodes, i);
    RemovedNodes(nodes, i);
    forall q | 0 <= q < |r| ensures r[q].next == At(r, q + 1) {
      if q >= i {
        assert r[q] == nodes[q + 1] && At(r, q + 1) == At(nodes, q + 2);
      } else {
        assert r[q] == nodes[q];
      }
    }
  }

  /** done holds the first n nodes of all, whose values are vals, in sorted order. */
  ghost predicate Sorting(done: seq<Member>, all: seq<Member>, vals: seq<MemberVal>, n: nat)
    reads done, all
  {
    && n <= |all| && Distinct(all) && vals == Values(all)
    && (forall q | 0 <= q < |done| :: done[q] in all[..n])
    && multiset(done) == multiset(all[..n])
    && Values(done) == SortByRank(vals[..n])
  }

  /** From position n on the next pointers run as in all. */
  ghost predicate LinkedFrom(all: seq<Member>, n: nat)
    reads all
  {
    forall k {:trigger all[k].next} | n <= k < |all| :: all[k].next == At(all, k + 1)
  }

  lemma SortedAll(done: seq<Member>, all: seq<Member>, vals: seq<MemberVal>)
    requires Sorting(done, all, vals, |all|)
    ensures Values(done) == SortByRank(vals)
    ensures multiset(done) == multiset(all) && forall q | 0 <= q < |done| :: done[q] in all
  {
    assert all[..|all|] == all && vals[..|all|] == vals;
  }

  lemma SortedNodesIn(done: seq<Member>, all: seq<Member>, vals: seq<MemberVal>, n: nat)
    requires Sorting(done, all, vals, n)
    ensures forall q | 0 <= q < |done| :: done[q] in all
  {
    forall q | 0 <= q < |done| ensures done[q] in all {
      assert done[q] in all[..n];
    }
  }

  lemma NotYetSorted(done: seq<Member>, all: seq<Member>, vals: seq<MemberVal>, n: nat)
    requires Sorting(done, all, vals, n)
    ensures forall k | n <= k < |all| :: all[k] !in done
  {
    forall k | n <= k < |all| ensures all[k] !in done {
      assert all[k] !in all[..n];
    }
  }

  lemma SortStep(vals: seq<MemberVal>, n: nat)
    requires n < |vals|
    ensures SortByRank(vals[..n + 1]) == Insert(SortByRank(vals[..n]), vals[n])
  {
    assert vals[..n + 1][..n] == vals[..n];
  }

  lemma PrefixGrows(r: seq<Member>, done: seq<Member>, all: seq<Member>, n: nat, p: nat)
    requires n < |all| && p <= |done| && r == InsertAt(done, p, all[n])
    requires forall q | 0 <= q < |done| :: done[q] in all[..n]
    requires multiset(done) == multiset(all[..n])
    ensures forall q | 0 <= q < |r| :: r[q] in all[..n + 1]
    ensures multiset(r) == multiset(all[..n + 1])
  {
    var i := all[n];
    assert all[..n + 1] == all[..n] + [i];
    InsertedNodes(done, p, i);
    forall q | 0 <= q < |r| ensures r[q] in all[..n + 1] {
      assert r[q] == i || r[q] == done[if q < p then q else q - 1];
    }
  }

  lemma SortedSoFar(done: seq<Member>, all: seq<Member>, vals: seq<MemberVal>, n: nat, p: nat)
    requires Sorting(done, all, vals, n) && n < |all| && p == Place(Values(done), all[n].rank)
    ensures Sorting(InsertAt(done, p, all[n]), all, vals, n + 1)
  {
    PrefixGrows(InsertAt(done, p, all[n]), done, all, n, p);
    ValuesInserted(done, p, all[n]);
    SortStep(vals, n);
  }

  lemma ValuesInserted(done: seq<Member>, p: nat, i: Member)
    requires p <= |done|
    ensures Values(InsertAt(done, p, i)) == Values(done)[..p] + [i.Value()] + Values(done)[p..]
  {
  }

  ghost function InsertAt(nodes: seq<Member>, p: nat, i: Member): seq<Member>
    requires p <= |nodes|
  {
    nodes[..p] + [i] + nodes[p..]
  }

  lemma InsertedNodes(nodes: seq<Member>, p: nat, i: Member)
    requires p <= |nodes|
    ensures var r := InsertAt(nodes, p, i);
      && |r| == |nodes| + 1
      && (forall q | 0 <= q < |r| :: r[q] == if q < p then nodes[q] else if q == p then i else nodes[q - 1])
      && multiset(r) == multiset(nodes) + multiset{i}
  {
    assert nodes == nodes[..p] + nodes[p..];
  }

  lemma RemovedNodes(nodes: seq<Member>, i: nat)
    requires i < |nodes|
    ensures var r := RemoveAt(nodes, i);
      |r| == |nodes| - 1 && forall k | 0 <= k < |r| :: r[k] == nodes[if k < i then k else k + 1]
  {
  }

  lemma FindAt(ms: seq<MemberVal>, idnum: int, i: nat)
    requires i <= |ms| && (i < |ms| ==> ms[i].idnum == idnum) && forall j | 0 <= j < i :: ms[j].idnum != idnum
    ensures Find(ms, idnum) == i
  {
  }
}
