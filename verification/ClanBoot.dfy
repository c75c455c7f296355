/** Rebuilding the member lists from the clan_members table when the game boots. */
module ClanBoot {
  import opened ClanList
  import opened ClanRules
  import opened ClanRuns
  import opened ClanTitles

  /** order lists every row once, lower ranks first, as the query for it asks. */
  ghost predicate Ascending(order: seq<Row>, rows: set<Row>) {
    && (forall r: Row :: r in rows <==> r in order)
    && (forall i, j | 0 <= i < j < |order| :: order[i] != order[j] && order[i].rank <= order[j].rank)
  }

  lemma {:induction false} BootMembers(order: seq<Row>, number: int)
    ensures forall x :: x in BootList(order, number) <==> Row(number, x.idnum, x.rank, x.noMail) in order
    decreases |order|
  {
    if order != [] {
      var front, last := order[..|order| - 1], order[|order| - 1];
      BootMembers(front, number);
      assert order == front + [last];
    }
  }

  lemma {:induction false} BootSorted(order: seq<Row>, number: int)
    requires forall i, j | 0 <= i < j < |order| :: order[i].rank <= order[j].rank
    ensures ByRank(BootList(order, number))
    decreases |order|
  {
    if order != [] {
      var front, last := order[..|order| - 1], order[|order| - 1];
      BootSorted(front, number);
      BootMembers(front, number);
      var ms := BootList(front, number);
      forall i | 0 <= i < |ms| ensures ms[i].rank <= last.rank {
        assert ms[i] in ms;
      }
    }
  }

  lemma {:induction false} BootDistinct(order: seq<Row>, number: int)
    requires forall i, j | 0 <= i < j < |order| ::
      order[i].clan == order[j].clan == number ==> order[i].player != order[j].player
    ensures DistinctIds(BootList(order, number))
    decreases |order|
  {
    if order != [] {
      var front, last := order[..|order| - 1], order[|order| - 1];
      BootDistinct(front, number);
      BootMembers(front, number);
      var ms := BootList(front, number);
      if last.clan == number {
        forall i | 0 <= i < |ms| ensures ms[i].idnum != last.player {
          assert ms[i] in ms;
          var r := Row(number, ms[i].idnum, ms[i].rank, ms[i].noMail);
          var j :| 0 <= j < |front| && front[j] == r;
          assert order[j] == r;
        }
      }
    }
  }

  lemma {:induction false} SameElements(a: seq<MemberVal>, b: seq<MemberVal>)
    requires DistinctIds(a) && DistinctIds(b) && forall x :: x in a <==> x in b
    ensures multiset(a) == multiset(b)
  {
    forall x: MemberVal ensures multiset(a)[x] == multiset(b)[x] {
      Once(a, x);
      Once(b, x);
    }
  }

  lemma {:induction false} Once(ms: seq<MemberVal>, x: MemberVal)
    requires DistinctIds(ms)
    ensures multiset(ms)[x] == if x in ms then 1 else 0
  {
    if ms != [] {
      var front, last := ms[..|ms| - 1], ms[|ms| - 1];
      assert ms == front + [last];
      Once(front, x);
    }
  }

  /** The rebuilt list of a clan has exactly its members, by rank. */
  lemma BootClan(w: World, order: seq<Row>, k: nat)
    requires Inv(w) && Ascending(order, w.rows) && k < |w.clans|
    ensures var ms := BootList(order, w.clans[k].number);
      && ByRank(ms) && DistinctIds(ms) && multiset(ms) == multiset(w.clans[k].members)
      && (forall x :: x in ms <==> x in w.clans[k].members)
  {
    var c := w.clans[k];
    var ms := BootList(order, c.number);
    BootSorted(order, c.number);
    BootMembers(order, c.number);
    TableOf(w, k);
    forall x ensures x in ms <==> x in c.members {
      var r := Row(c.number, x.idnum, x.rank, x.noMail);
      assert RowMember(r) == x;
    }
    forall i, j | 0 <= i < j < |order| && order[i].clan == order[j].clan == c.number
      ensures order[i].player != order[j].player
    {
      assert order[i] in order && order[j] in order;
      if order[i].player == order[j].player {
        SameRow(w, k, order[i], order[j]);
      }
    }
    BootDistinct(order, c.number);
    assert ClanOk(c);
    SameElements(ms, c.members);
  }

  lemma SameRow(w: World, k: nat, r: Row, s: Row)
    requires Inv(w) && k < |w.clans| && r in w.rows && s in w.rows
    requires r.clan == s.clan == w.clans[k].number && r.player == s.player
    ensures r == s
  {
    TableOf(w, k);
    assert ClanOk(w.clans[k]);
    var i :| 0 <= i < |w.clans[k].members| && w.clans[k].members[i] == RowMember(r);
    MemberIs(w.clans[k].members, i, RowMember(s));
  }

  // ---------- Ranks ----------

  /** The rows of the table, in any order. */
  ghost predicate Enumerates(titles: seq<Title>, table: set<Title>) {
    forall t: Title :: t in table <==> t in titles
  }

  /** The highest rank below n that has a name, or 0. */
  function HighestBelow(names: seq<string>, n: nat): (r: nat)
    requires n <= |names|
    ensures r == 0 || (r < n && names[r] != "")
    ensures forall i | 0 <= i < n && names[i] != "" :: i <= r
  {
    if n == 0 then 0 else if names[n - 1] != "" then n - 1 else HighestBelow(names, n - 1)
  }

  function Highest(names: seq<string>): nat {
    HighestBelow(names, |names|)
  }

  lemma {:induction false} BootTopIs(titles: seq<Title>, number: int)
    ensures var r := BootTop(titles, number);
      && r >= 0 && (r == 0 || exists t :: t in titles && t.clan == number && t.rank == r)
      && forall t | t in titles && t.clan == number :: t.rank <= r
    decreases |titles|
  {
    if titles != [] {
      var front, last := titles[..|titles| - 1], titles[|titles| - 1];
      BootTopIs(front, number);
      assert titles == front + [last];
    }
  }

  lemma {:induction false} BootNamesAt(titles: seq<Title>, number: int, i: nat)
    requires i < NUM_CLAN_RANKS
    ensures var name := BootNames(titles, number)[i];
      if exists t :: t in titles && t.clan == number && t.rank == i then Title(number, i, name) in titles
      else name == ""
    decreases |titles|
  {
    if titles != [] {
      var front, last := titles[..|titles| - 1], titles[|titles| - 1];
      BootNamesAt(front, number, i);
      assert titles == front + [last];
    }
  }

  /** A boot finds the names of all ranks, and takes the highest that has one for the top rank. */
  lemma BootRanksAre(w: World, titles: seq<Title>, k: nat)
    requires Inv(w) && Titled(w) && Enumerates(titles, w.titles) && k < |w.clans|
    ensures var c := w.clans[k];
      BootNames(titles, c.number) == c.names && BootTop(titles, c.number) == Highest(c.names) <= c.topRank
  {
    var c := w.clans[k];
    TitlesOf(w, k);
    assert NamesOk(c);
    forall i | 0 <= i < NUM_CLAN_RANKS ensures BootNames(titles, c.number)[i] == c.names[i] {
      BootNamesAt(titles, c.number, i);
      if c.names[i] != "" {
        assert Title(c.number, i, c.names[i]) in titles;
      }
    }
    BootTopIs(titles, c.number);
    var h := Highest(c.names);
    if c.names[h] != "" {
      assert Title(c.number, h, c.names[h]) in titles;
    }
  }

  // ---------- Booting ----------

  /** No member has a rank above all ranks with a name. */
  predicate RanksNamed(c: ClanVal) {
    forall i | 0 <= i < |c.members| :: c.members[i].rank <= Highest(c.names)
  }

  lemma BootedOk(c: ClanVal, ms: seq<MemberVal>, top: int, players: map<int, Player>)
    requires ClanOk(c) && Belong(c, players) && ByRank(ms) && DistinctIds(ms) && 0 <= top <= c.topRank
    requires forall x :: x in ms <==> x in c.members
    ensures ClanOk(c.(members := ms, topRank := top)) <==> forall i | 0 <= i < |c.members| :: c.members[i].rank <= top
    ensures Belong(c.(members := ms, topRank := top), players)
  {
    forall i | 0 <= i < |ms| ensures 0 <= ms[i].rank && Listed(c.members, ms[i].idnum) {
      assert ms[i] in c.members;
      ListedIn(c.members, ms[i].idnum);
    }
    BelongPart(c, ms, players);
    BoundSame(c.members, ms, top);
  }

  lemma BoundSame(a: seq<MemberVal>, b: seq<MemberVal>, top: int)
    requires forall x :: x in a <==> x in b
    ensures (forall i | 0 <= i < |a| :: a[i].rank <= top) <==> (forall i | 0 <= i < |b| :: b[i].rank <= top)
  {
    if forall i | 0 <= i < |a| :: a[i].rank <= top {
      forall i | 0 <= i < |b| ensures b[i].rank <= top {
        assert b[i] in a;
      }
    }
    if forall i | 0 <= i < |b| :: b[i].rank <= top {
      forall i | 0 <= i < |a| ensures a[i].rank <= top {
        assert a[i] in b;
      }
    }
  }

  /** Clan k after a boot: its members by rank, its names, and a top rank that may be lower. */
  lemma RebootedClan(w: World, titles: seq<Title>, order: seq<Row>, k: nat)
    requires Inv(w) && Titled(w) && Enumerates(titles, w.titles) && Ascending(order, w.rows) && k < |w.clans|
    ensures var c, c' := w.clans[k], Reboot(w, titles, order).clans[k];
      && c' == c.(topRank := Highest(c.names), members := BootList(order, c.number))
      && (ClanOk(c') <==> RanksNamed(c)) && Belong(c', w.players) && NamesOk(c')
      && multiset(c'.members) == multiset(c.members) && (forall x :: x in c'.members <==> x in c.members)
  {
    var c := w.clans[k];
    BootRanksAre(w, titles, k);
    BootClan(w, order, k);
    assert ClanOk(c) && Belong(c, w.players) && NamesOk(c);
    BootedOk(c, BootList(order, c.number), Highest(c.names), w.players);
  }

  lemma RebootedNumbers(w: World, titles: seq<Title>, order: seq<Row>)
    ensures |Reboot(w, titles, order).clans| == |w.clans|
    ensures forall k | 0 <= k < |w.clans| :: Reboot(w, titles, order).clans[k].number == w.clans[k].number
  {
  }

  lemma RebootedTable(w: World, titles: seq<Title>, order: seq<Row>)
    requires Inv(w) && Titled(w) && Enumerates(titles, w.titles) && Ascending(order, w.rows)
    ensures TableMatches(Reboot(w, titles, order).clans, w.rows)
  {
    var clans := Reboot(w, titles, order).clans;
    RebootedNumbers(w, titles, order);
    forall r: Row ensures Holds(clans, r) <==> Holds(w.clans, r) {
      HoldsSomewhere(clans, r);
      HoldsSomewhere(w.clans, r);
      forall k | 0 <= k < |clans| ensures RowMember(r) in clans[k].members <==> RowMember(r) in w.clans[k].members {
        RebootedClan(w, titles, order, k);
      }
    }
  }

  lemma RebootedTitles(w: World, titles: seq<Title>, order: seq<Row>)
    requires Inv(w) && Titled(w) && Enumerates(titles, w.titles) && Ascending(order, w.rows)
    ensures Titled(Reboot(w, titles, order))
  {
    var clans := Reboot(w, titles, order).clans;
    RebootedNumbers(w, titles, order);
    forall k | 0 <= k < |clans| ensures NamesOk(clans[k]) && clans[k].names == w.clans[k].names {
      RebootedClan(w, titles, order, k);
    }
    forall t: Title ensures TitleHolds(clans, t) <==> TitleHolds(w.clans, t) {
      RealClanAt(clans, t.clan, RealClan(w.clans, t.clan));
    }
  }

  /** A boot restores all members, in order of rank, and all names. What runs rely on holds again exactly
      when no member has a rank above all that have names: the top rank itself is not kept. */
  lemma BootInv(w: World, titles: seq<Title>, order: seq<Row>)
    requires Inv(w) && Titled(w) && Enumerates(titles, w.titles) && Ascending(order, w.rows)
    ensures Inv(Reboot(w, titles, order)) <==> forall k | 0 <= k < |w.clans| :: RanksNamed(w.clans[k])
    ensures Titled(Reboot(w, titles, order)) && TableMatches(Reboot(w, titles, order).clans, w.rows)
    ensures forall k | 0 <= k < |w.clans| ::
      var c, c' := w.clans[k], Reboot(w, titles, order).clans[k];
      c'.names == c.names && ByRank(c'.members) && multiset(c'.members) == multiset(c.members)
  {
    RebootedNumbers(w, titles, order);
    RebootedTable(w, titles, order);
    RebootedTitles(w, titles, order);
    var w' := Reboot(w, titles, order);
    forall k | 0 <= k < |w.clans|
      ensures (ClanOk(w'.clans[k]) <==> RanksNamed(w.clans[k])) && Belong(w'.clans[k], w.players)
      ensures w'.clans[k].names == w.clans[k].names && ByRank(w'.clans[k].members)
      ensures multiset(w'.clans[k].members) == multiset(w.clans[k].members)
    {
      RebootedClan(w, titles, order, k);
      BootClan(w, order, k);
    }
  }

  lemma RunThenBoot(w: World, cs: seq<Command>, titles: seq<Title>, order: seq<Row>)
    requires Inv(w) && Titled(w) && AdmissibleRun(w, cs)
    requires Enumerates(titles, Run(w, cs).titles) && Ascending(order, Run(w, cs).rows)
    ensures var end := Run(w, cs);
      && (Inv(Reboot(end, titles, order)) <==> forall k | 0 <= k < |end.clans| :: RanksNamed(end.clans[k]))
      && Titled(Reboot(end, titles, order))
      && forall k | 0 <= k < |end.clans| ::
           multiset(Reboot(end, titles, order).clans[k].members) == multiset(end.clans[k].members)
  {
    RunInv(w, cs);
    RunTitled(w, cs);
    BootInv(Run(w, cs), titles, order);
  }

  // ---------- A top rank that is forgotten ----------

  /** One clan with one member, an administrator. */
  function OneClan(top: int, rank: int): World {
    World([ClanVal(1, "", top, 0, NO_NAMES, [MemberVal(7, rank, false)])], map[7 := ADMIN],
          {Row(1, 7, rank, false)}, {})
  }

  lemma OneClanInv()
    ensures Inv(OneClan(0, 0)) && Titled(OneClan(0, 0))
  {
    var w := OneClan(0, 0);
    forall r: Row ensures r in w.rows <==> Holds(w.clans, r) {
      if Holds(w.clans, r) {
        assert r == Row(1, 7, 0, false);
      }
    }
    assert NamesOk(w.clans[0]);
  }

  lemma TopIsRaised()
    ensures Apply(OneClan(0, 0), CmdSetTop(7, 1, 3)) == OneClan(3, 0)
  {
    var w := OneClan(0, 0);
    RealClanAt(w.clans, 1, 0);
    assert ClampAll([SEVENTH], 3) == [SEVENTH];
    assert CutNames(NO_NAMES, 3) == NO_NAMES;
    var w' := SetTop(w, 7, 1, 3);
    assert w'.clans == OneClan(3, 0).clans;
    assert ClampRow(Row(1, 7, 0, false), 1, 3) == Row(1, 7, 0, false);
    assert w'.rows == OneClan(3, 0).rows;
    assert w'.titles == {};
  }

  lemma MemberIsRaised()
    ensures Apply(OneClan(3, 0), CmdPromote(7, 7)) == OneClan(3, 1)
  {
    var w := OneClan(3, 0);
    RealClanAt(w.clans, 1, 0);
    FindAt([SEVENTH], 7, 0);
    assert [SEVENTH][0 := MemberVal(7, 1, false)] == [MemberVal(7, 1, false)];
    SortOne(MemberVal(7, 1, false));
    var w' := ChangeRank(w, 0, 0, 1);
    assert w'.clans == OneClan(3, 1).clans;
    assert w'.rows == OneClan(3, 1).rows;
  }

  /** The top rank is raised but no rank gets a name, a member is promoted, and the game boots: the top rank
      is 0 again and the member above it. */
  lemma TopRankForgotten()
    ensures Inv(OneClan(0, 0)) && Titled(OneClan(0, 0))
    ensures var w := Run(OneClan(0, 0), [CmdSetTop(7, 1, 3), CmdPromote(7, 7)]);
      && Enumerates([], w.titles) && Ascending([Row(1, 7, 1, false)], w.rows)
      && var w' := Reboot(w, [], [Row(1, 7, 1, false)]);
      w'.clans[0].topRank == 0 && w'.clans[0].members == [MemberVal(7, 1, false)] && !Inv(w')
  {
    OneClanInv();
    TopIsRaised();
    MemberIsRaised();
    RunTwo(OneClan(0, 0), CmdSetTop(7, 1, 3), CmdPromote(7, 7));
    var order := [Row(1, 7, 1, false)];
    assert order[..0] == [] && [MemberVal(7, 1, false)] + [] == [MemberVal(7, 1, false)];
    assert BootList(order, 1) == [MemberVal(7, 1, false)] + BootList([], 1);
    var c := Reboot(OneClan(3, 1), [], order).clans[0];
    assert c.topRank == 0 && c.members[0].rank == 1 && !ClanOk(c);
  }

  // ---------- An administrator in two clans ----------

  const SEVENTH := MemberVal(7, 0, false)
  const ADMIN := Player(1, false, false, false, false, 60, 0, true, true)

  function TwoClans(ms1: seq<MemberVal>, ms2: seq<MemberVal>, clan: int, rows: set<Row>): World {
    World([NewClan(1).(members := ms1), NewClan(2).(members := ms2)], map[7 := ADMIN.(clan := clan)], rows, {})
  }

  lemma TwoClansInv()
    ensures Inv(TwoClans([SEVENTH], [], 1, {Row(1, 7, 0, false)}))
  {
    var w := TwoClans([SEVENTH], [], 1, {Row(1, 7, 0, false)});
    forall r: Row ensures r in w.rows <==> Holds(w.clans, r) {
      if Holds(w.clans, r) {
        assert r == Row(1, 7, 0, false);
      }
    }
  }

  lemma JoinsSecond()
    ensures Apply(TwoClans([SEVENTH], [], 1, {Row(1, 7, 0, false)}), CmdJoin(7, 2, "")) ==
      TwoClans([SEVENTH], [SEVENTH], 2, {Row(1, 7, 0, false), Row(2, 7, 0, false)})
  {
    var w := TwoClans([SEVENTH], [], 1, {Row(1, 7, 0, false)});
    RealClanAt(w.clans, 2, 1);
    assert [SEVENTH] + [] == [SEVENTH];
    SortOne(SEVENTH);
    var w' := Induct(w, 1, 7);
    assert w'.players == map[7 := ADMIN.(clan := 2)];
    assert w'.clans == [w.clans[0], NewClan(2).(members := [SEVENTH])];
  }

  lemma ResignsFromSecond()
    ensures Apply(TwoClans([SEVENTH], [SEVENTH], 2, {Row(1, 7, 0, false), Row(2, 7, 0, false)}), CmdResign(7, true)) ==
      TwoClans([SEVENTH], [], 0, {})
  {
    var w := TwoClans([SEVENTH], [SEVENTH], 2, {Row(1, 7, 0, false), Row(2, 7, 0, false)});
    RealClanAt(w.clans, 2, 1);
    assert w.clans[1 := w.clans[1]] == w.clans;
    FindAt([SEVENTH], 7, 0);
    var w' := Leave(w, 1, 7);
    assert w'.players == map[7 := ADMIN.(clan := 0)];
    assert Without([SEVENTH], 7) == [];
    assert w'.clans == [w.clans[0], NewClan(2)];
  }

  lemma RunTwo(w: World, c: Command, d: Command)
    ensures Run(w, [c, d]) == Apply(Apply(w, c), d)
  {
    assert [c, d][1..] == [d] && [d][1..] == [];
    assert Run(Apply(w, c), [d]) == Run(Apply(Apply(w, c), d), []);
  }

  /** An administrator who joins a second clan and resigns from it stays listed in the first without a
      row: a boot then forgets the membership. */
  lemma AdminInTwoClans()
    ensures var w0 := TwoClans([SEVENTH], [], 1, {Row(1, 7, 0, false)});
      Inv(w0) && var w := Run(w0, [CmdJoin(7, 2, ""), CmdResign(7, true)]);
      Listed(w.clans[0].members, 7) && w.players[7].clan == 0 && w.rows == {} && !TableMatches(w.clans, w.rows)
  {
    TwoClansInv();
    JoinsSecond();
    ResignsFromSecond();
    RunTwo(TwoClans([SEVENTH], [], 1, {Row(1, 7, 0, false)}), CmdJoin(7, 2, ""), CmdResign(7, true));
    var w := TwoClans([SEVENTH], [], 0, {});
    FindAt([SEVENTH], 7, 0);
    RealClanAt(w.clans, 1, 0);
    assert RowMember(Row(1, 7, 0, false)) == w.clans[0].members[0];
    assert Holds(w.clans, Row(1, 7, 0, false));
  }

  lemma SortOne(m: MemberVal)
    ensures SortByRank([m]) == [m]
  {
    assert [m][..0] == [];
    assert Insert([], m) == [m];
  }
}
