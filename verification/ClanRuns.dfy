/** What every run of clan commands keeps: sorted and bounded member lists, and a table that equals
    them. */
module ClanRuns {
  import opened ClanList
  import opened ClanRules

  // ---------- The invariant ----------

  predicate MembersOk(ms: seq<MemberVal>, top: int) {
    && ByRank(ms) && DistinctIds(ms)
    && (forall i | 0 <= i < |ms| :: 0 <= ms[i].rank <= top)
  }

  predicate ClanOk(c: ClanVal) {
    c.number > 0 && 0 <= c.topRank < NUM_CLAN_RANKS && MembersOk(c.members, c.topRank)
  }

  predicate NumbersDistinct(clans: seq<ClanVal>) {
    forall i, j | 0 <= i < j < |clans| :: clans[i].number != clans[j].number
  }

  /** A listed player is a player character whose clan field names that clan. */
  predicate Belong(c: ClanVal, players: map<int, Player>) {
    forall i | 0 <= i < |c.members| ::
      var id := c.members[i].idnum;
      id in players && players[id].clan == c.number && !players[id].npc
  }

  function RowMember(r: Row): MemberVal {
    MemberVal(r.player, r.rank, r.noMail)
  }

  /** The row says what the member lists say. */
  predicate Holds(clans: seq<ClanVal>, r: Row) {
    Exists(clans, r.clan) && RowMember(r) in clans[RealClan(clans, r.clan)].members
  }

  /** The rows of the table are exactly the members in memory. */
  ghost predicate TableMatches(clans: seq<ClanVal>, rows: set<Row>) {
    forall r: Row :: r in rows <==> Holds(clans, r)
  }

  predicate ListsOk(clans: seq<ClanVal>, players: map<int, Player>) {
    && NumbersDistinct(clans)
    && (forall k | 0 <= k < |clans| :: ClanOk(clans[k]))
    && (forall k | 0 <= k < |clans| :: Belong(clans[k], players))
  }

  ghost predicate Inv(w: World) {
    ListsOk(w.clans, w.players) && TableMatches(w.clans, w.rows)
  }

  // ---------- Members of changed lists ----------

  lemma InsertMembers(ms: seq<MemberVal>, m: MemberVal)
    ensures forall x :: x in Insert(ms, m) <==> x in ms || x == m
    ensures DistinctIds(ms) && (forall i | 0 <= i < |ms| :: ms[i].idnum != m.idnum) ==> DistinctIds(Insert(ms, m))
  {
    var p := Place(ms, m.rank);
    InParts(ms[..p], m, ms[p..]);
    assert ms == ms[..p] + ms[p..];
    if forall i | 0 <= i < |ms| :: ms[i].idnum != m.idnum {
      InsertDistinct(ms, m);
    }
  }

  lemma InParts(a: seq<MemberVal>, m: MemberVal, b: seq<MemberVal>)
    ensures forall x :: x in a + [m] + b <==> x in a + b || x == m
  {
  }

  lemma InsertDistinct(ms: seq<MemberVal>, m: MemberVal)
    requires forall i | 0 <= i < |ms| :: ms[i].idnum != m.idnum
    ensures DistinctIds(ms) ==> DistinctIds(Insert(ms, m))
  {
    var p, r := Place(ms, m.rank), Insert(ms, m);
    assert forall i | 0 <= i < |r| :: r[i] == if i < p then ms[i] else if i == p then m else ms[i - 1];
  }

  lemma {:induction false} SortMembers(ms: seq<MemberVal>)
    ensures forall x :: x in SortByRank(ms) <==> x in ms
    ensures DistinctIds(ms) ==> DistinctIds(SortByRank(ms))
    decreases |ms|
  {
    if ms != [] {
      var front, last := ms[..|ms| - 1], ms[|ms| - 1];
      assert ms == front + [last];
      SortMembers(front);
      InsertMembers(SortByRank(front), last);
      if DistinctIds(ms) {
        forall i | 0 <= i < |SortByRank(front)| ensures SortByRank(front)[i].idnum != last.idnum {
          assert SortByRank(front)[i] in front;
        }
      }
    }
  }

  /** Sorting members whose ranks are in bounds makes a list that is in order. */
  lemma SortedOk(ms: seq<MemberVal>, top: int)
    requires DistinctIds(ms) && forall i | 0 <= i < |ms| :: 0 <= ms[i].rank <= top
    ensures MembersOk(SortByRank(ms), top)
  {
    SortCorrect(ms);
    SortMembers(ms);
    forall i | 0 <= i < |SortByRank(ms)| ensures 0 <= SortByRank(ms)[i].rank <= top {
      assert SortByRank(ms)[i] in ms;
    }
  }

  lemma ListedIn(ms: seq<MemberVal>, id: int)
    ensures Listed(ms, id) <==> exists i :: 0 <= i < |ms| && ms[i].idnum == id
  {
    if Listed(ms, id) {
      assert ms[Find(ms, id)].idnum == id;
    }
  }

  lemma RemovedMembers(ms: seq<MemberVal>, i: nat)
    requires i < |ms| && DistinctIds(ms)
    ensures var r := RemoveAt(ms, i);
      && |r| == |ms| - 1 && (forall k | 0 <= k < |r| :: r[k] == ms[if k < i then k else k + 1])
      && (forall k | 0 <= k < |ms| && k != i :: ms[k] in r)
      && (forall k | 0 <= k < |r| :: r[k] in ms && r[k].idnum != ms[i].idnum)
  {
    var r := RemoveAt(ms, i);
    assert forall k | 0 <= k < |r| :: r[k] == ms[if k < i then k else k + 1];
    forall k | 0 <= k < |ms| && k != i ensures ms[k] in r {
      assert r[if k < i then k else k - 1] == ms[k];
    }
    forall k | 0 <= k < |r| ensures r[k] in ms && r[k].idnum != ms[i].idnum {
      assert r[k] == ms[if k < i then k else k + 1];
    }
  }

  lemma WithoutMembers(ms: seq<MemberVal>, id: int, top: int)
    requires MembersOk(ms, top)
    ensures MembersOk(Without(ms, id), top)
    ensures forall x :: x in Without(ms, id) <==> x in ms && x.idnum != id
  {
    if Listed(ms, id) {
      RemovedMembers(ms, Find(ms, id));
    }
  }

  lemma UpdatedMembers(ms: seq<MemberVal>, i: nat, m: MemberVal)
    requires i < |ms| && DistinctIds(ms) && m.idnum == ms[i].idnum
    ensures DistinctIds(ms[i := m])
    ensures forall x :: x in ms[i := m] <==> x == m || (x in ms && x.idnum != m.idnum)
  {
    var r := ms[i := m];
    forall x ensures x in r <==> x == m || (x in ms && x.idnum != m.idnum) {
      if x == m {
        assert r[i] == x;
      } else if x in ms && x.idnum != m.idnum {
        var k :| 0 <= k < |ms| && ms[k] == x;
        assert r[k] == x;
      }
    }
  }

  // ---------- One clan changes ----------

  lemma RealClanSame(clans: seq<ClanVal>, k: nat, c: ClanVal, number: int)
    requires k < |clans| && c.number == clans[k].number
    ensures RealClan(clans[k := c], number) == RealClan(clans, number)
  {
    RealClanAt(clans[k := c], number, RealClan(clans, number));
  }

  lemma RealClanAt(clans: seq<ClanVal>, number: int, k: nat)
    requires k <= |clans| && (k < |clans| ==> clans[k].number == number && number != 0)
    requires forall j | 0 <= j < k :: number == 0 || clans[j].number != number
    ensures RealClan(clans, number) == k
  {
  }

  /** The table keeps matching when the rows of clan k follow its new members and the others stay. */
  lemma TableAfter(clans: seq<ClanVal>, rows: set<Row>, k: nat, c: ClanVal, rows': set<Row>)
    requires k < |clans| && c.number == clans[k].number && c.number != 0 && NumbersDistinct(clans)
    requires TableMatches(clans, rows)
    requires forall r: Row | r.clan == c.number :: r in rows' <==> RowMember(r) in c.members
    requires forall r: Row | r.clan != c.number :: r in rows' <==> r in rows
    ensures TableMatches(clans[k := c], rows')
  {
    forall r: Row ensures r in rows' <==> Holds(clans[k := c], r) {
      RealClanSame(clans, k, c, r.clan);
      if r.clan == c.number {
        RealClanAt(clans, r.clan, k);
      }
    }
  }

  lemma ListsAfter(clans: seq<ClanVal>, players: map<int, Player>, k: nat, c: ClanVal)
    requires ListsOk(clans, players) && k < |clans|
    requires c.number == clans[k].number && ClanOk(c) && Belong(c, players)
    ensures ListsOk(clans[k := c], players)
  {
  }

  /** A row of the table names a listed player, whose clan it gives. */
  lemma RowBelongs(w: World, r: Row)
    requires Inv(w) && r in w.rows
    ensures r.player in w.players && w.players[r.player].clan == r.clan && !w.players[r.player].npc
  {
    var k := RealClan(w.clans, r.clan);
    var i :| 0 <= i < |w.clans[k].members| && w.clans[k].members[i] == RowMember(r);
    assert Belong(w.clans[k], w.players);
  }

  /** A player is listed only where its clan field says. */
  lemma ListedOnlyThere(w: World, k: nat, id: int)
    requires Inv(w) && k < |w.clans| && Listed(w.clans[k].members, id)
    ensures id in w.players && w.players[id].clan == w.clans[k].number && !w.players[id].npc
  {
    assert Belong(w.clans[k], w.players);
  }

  /** Changing a player who is in no list, or only in ways the lists do not see, keeps the lists. */
  lemma PlayerChanged(clans: seq<ClanVal>, players: map<int, Player>, id: int, p: Player)
    requires ListsOk(clans, players) && id in players
    requires (forall k | 0 <= k < |clans| :: !Listed(clans[k].members, id))
      || (p.clan == players[id].clan && p.npc == players[id].npc)
    ensures ListsOk(clans, players[id := p])
  {
    forall k | 0 <= k < |clans| ensures Belong(clans[k], players[id := p]) {
      assert Belong(clans[k], players);
      ListedIn(clans[k].members, id);
    }
  }

  // ---------- The changes that commands make ----------

  lemma NewMember(c: ClanVal, id: int)
    requires ClanOk(c) && !Listed(c.members, id)
    ensures var members := SortByRank([MemberVal(id, 0, false)] + c.members);
      && ClanOk(c.(members := members))
      && forall x :: x in members <==> x == MemberVal(id, 0, false) || x in c.members
  {
    ListedIn(c.members, id);
    var ms := [MemberVal(id, 0, false)] + c.members;
    SortedOk(ms, c.topRank);
    SortMembers(ms);
  }

  /** Inducting a player character who is listed nowhere keeps lists and table in step. */
  lemma InductInv(w: World, k: nat, id: int)
    requires Inv(w) && k < |w.clans| && Known(w, id) && !w.players[id].npc
    requires forall j | 0 <= j < |w.clans| :: !Listed(w.clans[j].members, id)
    ensures Inv(Induct(w, k, id))
  {
    var c := w.clans[k];
    NewMember(c, id);
    var c' := c.(members := SortByRank([MemberVal(id, 0, false)] + c.members));
    var p := w.players[id].(leader := false, clan := c.number);
    PlayerChanged(w.clans, w.players, id, p);
    var players := w.players[id := p];
    forall i | 0 <= i < |c'.members| ensures var m := c'.members[i].idnum;
      m in players && players[m].clan == c.number && !players[m].npc
    {
      assert c'.members[i] in c'.members;
      if c'.members[i] in c.members {
        var q :| 0 <= q < |c.members| && c.members[q] == c'.members[i];
        assert Belong(c, players);
      }
    }
    ListsAfter(w.clans, players, k, c');
    RealClanAt(w.clans, c.number, k);
    TableAfter(w.clans, w.rows, k, c', w.rows + {Row(c.number, id, 0, false)});
  }

  /** For the rows of clan k the table reads like its member list. */
  lemma TableOf(w: World, k: nat)
    requires Inv(w) && k < |w.clans|
    ensures forall r: Row | r.clan == w.clans[k].number :: r in w.rows <==> RowMember(r) in w.clans[k].members
  {
    RealClanAt(w.clans, w.clans[k].number, k);
  }

  lemma BelongPart(c: ClanVal, ms: seq<MemberVal>, players: map<int, Player>)
    requires Belong(c, players) && forall i | 0 <= i < |ms| :: Listed(c.members, ms[i].idnum)
    ensures Belong(c.(members := ms), players)
  {
    forall i | 0 <= i < |ms| ensures var id := ms[i].idnum;
      id in players && players[id].clan == c.number && !players[id].npc
    {
      assert c.members[Find(c.members, ms[i].idnum)].idnum == ms[i].idnum;
    }
  }

  lemma WithoutBelongs(c: ClanVal, id: int, players: map<int, Player>)
    requires ClanOk(c) && Belong(c, players)
    ensures Belong(c.(members := Without(c.members, id)), players) && !Listed(Without(c.members, id), id)
  {
    var r := Without(c.members, id);
    WithoutMembers(c.members, id, c.topRank);
    forall i | 0 <= i < |r| ensures Listed(c.members, r[i].idnum) && r[i].idnum != id {
      assert r[i] in r;
      ListedIn(c.members, r[i].idnum);
    }
    BelongPart(c, r, players);
  }

  /** A player whose clan field names clan k leaves it, and with it every row. */
  lemma LeaveInv(w: World, k: nat, id: int)
    requires Inv(w) && k < |w.clans| && Known(w, id) && w.players[id].clan == w.clans[k].number
    ensures Inv(Leave(w, k, id))
  {
    var c := w.clans[k];
    var c' := c.(members := Without(c.members, id));
    WithoutMembers(c.members, id, c.topRank);
    WithoutBelongs(c, id, w.players);
    ListsAfter(w.clans, w.players, k, c');
    var clans := w.clans[k := c'];
    forall j | 0 <= j < |clans| ensures !Listed(clans[j].members, id) {
      if j != k && Listed(clans[j].members, id) {
        ListedOnlyThere(w, j, id);
      }
    }
    PlayerChanged(clans, w.players, id, w.players[id].(clan := 0, leader := false));
    TableOf(w, k);
    forall r: Row | r.clan != c.number ensures r in DeletePlayer(w.rows, id) <==> r in w.rows {
      if r in w.rows {
        RowBelongs(w, r);
      }
    }
    TableAfter(w.clans, w.rows, k, c', DeletePlayer(w.rows, id));
  }

  lemma MemberIs(ms: seq<MemberVal>, i: nat, x: MemberVal)
    requires DistinctIds(ms) && i < |ms| && x in ms && x.idnum == ms[i].idnum
    ensures x == ms[i]
  {
  }

  /** A change of the row of one member: what the updated table holds. */
  lemma UpdatedRows(w: World, k: nat, i: nat, rows': set<Row>, was: Row, now: Row)
    requires Inv(w) && k < |w.clans| && i < |w.clans[k].members|
    requires RowMember(was) == w.clans[k].members[i] && was.clan == w.clans[k].number
    requires now.clan == was.clan && now.player == was.player
    requires forall r | r in w.rows :: r.player == was.player ==> r == was
    requires rows' == set r | r in w.rows :: if r.player == was.player then now else r
    ensures was in w.rows
    ensures forall r: Row :: r in rows' <==> r == now || (r in w.rows && r.player != was.player)
  {
    TableOf(w, k);
    assert RowMember(was) in w.clans[k].members;
    forall r: Row ensures r in rows' <==> r == now || (r in w.rows && r.player != was.player) {
      if r == now {
        assert was in w.rows;
      }
    }
  }

  lemma OnlyRow(w: World, k: nat, i: nat, was: Row)
    requires Inv(w) && k < |w.clans| && i < |w.clans[k].members|
    requires RowMember(was) == w.clans[k].members[i] && was.clan == w.clans[k].number
    ensures forall r | r in w.rows :: r.player == was.player ==> r == was
  {
    forall r | r in w.rows && r.player == was.player ensures r == was {
      RowBelongs(w, r);
      ListedIn(w.clans[k].members, was.player);
      ListedOnlyThere(w, k, was.player);
      TableOf(w, k);
      MemberIs(w.clans[k].members, i, RowMember(r));
    }
  }

  /** One member of clan k and its row change together. */
  lemma MemberUpdated(w: World, k: nat, i: nat, m: MemberVal, ms: seq<MemberVal>, rows': set<Row>)
    requires Inv(w) && k < |w.clans| && i < |w.clans[k].members| && m.idnum == w.clans[k].members[i].idnum
    requires MembersOk(ms, w.clans[k].topRank)
    requires forall x :: x in ms <==> x == m || (x in w.clans[k].members && x.idnum != m.idnum)
    requires forall r: Row :: r in rows' <==>
      r == Row(w.clans[k].number, m.idnum, m.rank, m.noMail) || (r in w.rows && r.player != m.idnum)
    ensures Inv(w.(clans := w.clans[k := w.clans[k].(members := ms)], rows := rows'))
  {
    var c := w.clans[k];
    forall j | 0 <= j < |ms| ensures Listed(c.members, ms[j].idnum) {
      assert ms[j] in ms;
      ListedIn(c.members, ms[j].idnum);
    }
    BelongPart(c, ms, w.players);
    ListsAfter(w.clans, w.players, k, c.(members := ms));
    TableOf(w, k);
    ListedIn(c.members, m.idnum);
    ListedOnlyThere(w, k, m.idnum);
    forall r: Row | r.clan != c.number ensures r in rows' <==> r in w.rows {
      if r in w.rows {
        RowBelongs(w, r);
      }
    }
    TableAfter(w.clans, w.rows, k, c.(members := ms), rows');
  }

  lemma RankRows(w: World, k: nat, i: nat, rank: int)
    requires Inv(w) && k < |w.clans| && i < |w.clans[k].members|
    ensures var m := w.clans[k].members[i];
      forall r: Row :: r in UpdateRank(w.rows, m.idnum, rank) <==>
        r == Row(w.clans[k].number, m.idnum, rank, m.noMail) || (r in w.rows && r.player != m.idnum)
  {
    var m := w.clans[k].members[i];
    var row := Row(w.clans[k].number, m.idnum, m.rank, m.noMail);
    OnlyRow(w, k, i, row);
    RankSet(w.rows, row, rank);
    UpdatedRows(w, k, i, UpdateRank(w.rows, m.idnum, rank), row, row.(rank := rank));
  }

  lemma RankSet(rows: set<Row>, row: Row, rank: int)
    requires forall r | r in rows :: r.player == row.player ==> r == row
    ensures UpdateRank(rows, row.player, rank) ==
      set r | r in rows :: if r.player == row.player then row.(rank := rank) else r
  {
  }

  lemma RankMembers(ms: seq<MemberVal>, i: nat, rank: int, top: int)
    requires MembersOk(ms, top) && i < |ms| && 0 <= rank <= top
    ensures MembersOk(SortByRank(SetRank(ms, i, rank)), top)
    ensures forall x :: x in SortByRank(SetRank(ms, i, rank)) <==>
      x == ms[i].(rank := rank) || (x in ms && x.idnum != ms[i].idnum)
  {
    UpdatedMembers(ms, i, ms[i].(rank := rank));
    SortedOk(SetRank(ms, i, rank), top);
    SortMembers(SetRank(ms, i, rank));
  }

  lemma ChangeRankInv(w: World, k: nat, i: nat, rank: int)
    requires Inv(w) && k < |w.clans| && i < |w.clans[k].members| && 0 <= rank <= w.clans[k].topRank
    ensures Inv(ChangeRank(w, k, i, rank))
  {
    var c := w.clans[k];
    var m := c.members[i].(rank := rank);
    RankRows(w, k, i, rank);
    RankMembers(c.members, i, rank, c.topRank);
    MemberUpdated(w, k, i, m, SortByRank(SetRank(c.members, i, rank)), UpdateRank(w.rows, m.idnum, rank));
  }

  lemma NoMailRows(w: World, k: nat, i: nat, noMail: bool)
    requires Inv(w) && k < |w.clans| && i < |w.clans[k].members|
    ensures var m := w.clans[k].members[i];
      forall r: Row :: r in UpdateNoMail(w.rows, m.idnum, noMail) <==>
        r == Row(w.clans[k].number, m.idnum, m.rank, noMail) || (r in w.rows && r.player != m.idnum)
  {
    var m := w.clans[k].members[i];
    var row := Row(w.clans[k].number, m.idnum, m.rank, m.noMail);
    OnlyRow(w, k, i, row);
    NoMailSet(w.rows, row, noMail);
    UpdatedRows(w, k, i, UpdateNoMail(w.rows, m.idnum, noMail), row, row.(noMail := noMail));
  }

  lemma NoMailSet(rows: set<Row>, row: Row, noMail: bool)
    requires forall r | r in rows :: r.player == row.player ==> r == row
    ensures UpdateNoMail(rows, row.player, noMail) ==
      set r | r in rows :: if r.player == row.player then row.(noMail := noMail) else r
  {
  }

  lemma NoMailInv(w: World, k: nat, i: nat, noMail: bool)
    requires Inv(w) && k < |w.clans| && i < |w.clans[k].members|
    ensures var c := w.clans[k];
      Inv(WithClan(w, k, c.(members := c.members[i := c.members[i].(noMail := noMail)]))
            .(rows := UpdateNoMail(w.rows, c.members[i].idnum, noMail)))
  {
    var c := w.clans[k];
    var m := c.members[i].(noMail := noMail);
    NoMailRows(w, k, i, noMail);
    UpdatedMembers(c.members, i, m);
    SameOrder(c.members, i, m, c.topRank);
    MemberUpdated(w, k, i, m, c.members[i := m], UpdateNoMail(w.rows, m.idnum, noMail));
  }

  lemma SameOrder(ms: seq<MemberVal>, i: nat, m: MemberVal, top: int)
    requires MembersOk(ms, top) && i < |ms| && m.idnum == ms[i].idnum && m.rank == ms[i].rank
    ensures MembersOk(ms[i := m], top)
  {
  }

  lemma ClampedFrom(w: World, k: nat, top: int, r: Row)
    requires Inv(w) && k < |w.clans| && r.clan == w.clans[k].number && r in ClampRows(w.rows, r.clan, top)
    ensures RowMember(r) in ClampAll(w.clans[k].members, top)
  {
    var c := w.clans[k];
    TableOf(w, k);
    var r0 :| r0 in w.rows && ClampRow(r0, c.number, top) == r;
    var i :| 0 <= i < |c.members| && c.members[i] == RowMember(r0);
    assert ClampAll(c.members, top)[i] == RowMember(r);
  }

  lemma ClampedRows(w: World, k: nat, top: int, r: Row)
    requires Inv(w) && k < |w.clans|
    ensures var c := w.clans[k];
      r in ClampRows(w.rows, c.number, top) <==>
        if r.clan == c.number then RowMember(r) in ClampAll(c.members, top) else r in w.rows
  {
    var c := w.clans[k];
    if r.clan != c.number {
      assert ClampRow(r, c.number, top) == r;
    } else if r in ClampRows(w.rows, c.number, top) {
      ClampedFrom(w, k, top, r);
    } else if RowMember(r) in ClampAll(c.members, top) {
      ClampedRow(w, k, top, r);
    }
  }

  lemma ClampedRow(w: World, k: nat, top: int, r: Row)
    requires Inv(w) && k < |w.clans| && r.clan == w.clans[k].number
    requires RowMember(r) in ClampAll(w.clans[k].members, top)
    ensures r in ClampRows(w.rows, r.clan, top)
  {
    var c := w.clans[k];
    var ms := ClampAll(c.members, top);
    var i :| 0 <= i < |ms| && ms[i] == RowMember(r);
    var r0 := Row(c.number, c.members[i].idnum, c.members[i].rank, c.members[i].noMail);
    TableOf(w, k);
    assert RowMember(r0) in c.members && ClampRow(r0, c.number, top) == r;
  }

  lemma SetTopInv(w: World, k: nat, top: int)
    requires Inv(w) && k < |w.clans| && 0 <= top < NUM_CLAN_RANKS
    ensures var c := w.clans[k];
      Inv(WithClan(w, k, c.(topRank := top, names := CutNames(c.names, top), members := ClampAll(c.members, top)))
            .(rows := ClampRows(w.rows, c.number, top)))
  {
    var c := w.clans[k];
    var ms := ClampAll(c.members, top);
    var c' := c.(topRank := top, names := CutNames(c.names, top), members := ms);
    var rows' := ClampRows(w.rows, c.number, top);
    forall i | 0 <= i < |ms| ensures Listed(c.members, ms[i].idnum) {
      assert c.members[i].idnum == ms[i].idnum;
      ListedIn(c.members, ms[i].idnum);
    }
    BelongPart(c, ms, w.players);
    ListsAfter(w.clans, w.players, k, c');
    forall r: Row ensures r in rows' <==> if r.clan == c.number then RowMember(r) in ms else r in w.rows {
      ClampedRows(w, k, top, r);
    }
    TableAfter(w.clans, w.rows, k, c', rows');
  }

  lemma RemoveInv(w: World, k: nat, id: int)
    requires Inv(w) && k < |w.clans|
    ensures var c := w.clans[k];
      Inv(WithClan(w, k, c.(members := Without(c.members, id))).(rows := DeleteMember(w.rows, c.number, id)))
  {
    var c := w.clans[k];
    var c' := c.(members := Without(c.members, id));
    WithoutMembers(c.members, id, c.topRank);
    WithoutBelongs(c, id, w.players);
    ListsAfter(w.clans, w.players, k, c');
    TableOf(w, k);
    TableAfter(w.clans, w.rows, k, c', DeleteMember(w.rows, c.number, id));
  }

  /** Holding without naming the position of the clan. */
  lemma HoldsSomewhere(clans: seq<ClanVal>, r: Row)
    requires NumbersDistinct(clans)
    ensures Holds(clans, r) <==>
      r.clan != 0 && exists k :: 0 <= k < |clans| && clans[k].number == r.clan && RowMember(r) in clans[k].members
  {
    forall k | 0 <= k < |clans| && clans[k].number == r.clan && r.clan != 0 ensures RealClan(clans, r.clan) == k {
      RealClanAt(clans, r.clan, k);
    }
  }

  lemma RemovedHolds(clans: seq<ClanVal>, k: nat, r: Row)
    requires k < |clans| && NumbersDistinct(clans)
    ensures NumbersDistinct(RemoveAt(clans, k))
    ensures Holds(RemoveAt(clans, k), r) <==> Holds(clans, r) && r.clan != clans[k].number
  {
    var less := RemoveAt(clans, k);
    assert forall j | 0 <= j < |less| :: less[j] == clans[if j < k then j else j + 1];
    HoldsSomewhere(clans, r);
    HoldsSomewhere(less, r);
    if Holds(clans, r) && r.clan != clans[k].number {
      var q :| 0 <= q < |clans| && clans[q].number == r.clan && RowMember(r) in clans[q].members;
      assert less[if q < k then q else q - 1] == clans[q];
    }
  }

  lemma RemovedLists(clans: seq<ClanVal>, players: map<int, Player>, k: nat)
    requires ListsOk(clans, players) && k < |clans|
    ensures var n := clans[k].number;
      ListsOk(RemoveAt(clans, k), map id | id in players :: Disbanded(players[id], n))
  {
    var n, less := clans[k].number, RemoveAt(clans, k);
    var players' := map id | id in players :: Disbanded(players[id], n);
    assert forall j | 0 <= j < |less| :: less[j] == clans[if j < k then j else j + 1];
    forall j | 0 <= j < |less| ensures ClanOk(less[j]) && Belong(less[j], players') {
      assert Belong(clans[if j < k then j else j + 1], players);
    }
  }

  lemma DeleteInv(w: World, k: nat)
    requires Inv(w) && k < |w.clans|
    ensures var n := w.clans[k].number;
      Inv(w.(clans := RemoveAt(w.clans, k), players := map id | id in w.players :: Disbanded(w.players[id], n),
             rows := DeleteClanRows(w.rows, n)))
  {
    RemovedLists(w.clans, w.players, k);
    forall r: Row ensures r in DeleteClanRows(w.rows, w.clans[k].number) <==> Holds(RemoveAt(w.clans, k), r) {
      RemovedHolds(w.clans, k, r);
    }
  }

  /** A clan without members holds no row, wherever it is put. */
  lemma EmptyClan(clans: seq<ClanVal>, p: nat, c: ClanVal, r: Row)
    requires p <= |clans| && c.members == [] && NumbersDistinct(clans[..p] + [c] + clans[p..])
    ensures Holds(clans, r) <==> Holds(clans[..p] + [c] + clans[p..], r)
  {
    var more := clans[..p] + [c] + clans[p..];
    assert RemoveAt(more, p) == clans;
    RemovedHolds(more, p, r);
    if r.clan == c.number {
      Memberless(more, p, r);
    }
  }

  lemma Memberless(clans: seq<ClanVal>, p: nat, r: Row)
    requires p < |clans| && clans[p].members == [] && r.clan == clans[p].number && NumbersDistinct(clans)
    ensures !Holds(clans, r)
  {
    HoldsSomewhere(clans, r);
  }

  lemma NewClanLists(clans: seq<ClanVal>, players: map<int, Player>, p: nat, c: ClanVal)
    requires ListsOk(clans, players) && p <= |clans| && c.members == [] && ClanOk(c)
    requires forall j | 0 <= j < |clans| :: clans[j].number != c.number
    ensures ListsOk(clans[..p] + [c] + clans[p..], players)
  {
    var more := clans[..p] + [c] + clans[p..];
    assert forall j | 0 <= j < |more| :: more[j] == if j < p then clans[j] else if j == p then c else clans[j - 1];
  }

  lemma CreateInv(w: World, number: int)
    requires Inv(w)
    ensures Inv(Create(w, number))
  {
    var w' := Create(w, number);
    if number > 0 && !Exists(w.clans, number) && number <= 255 {
      var p := NewPlace(w.clans, number);
      var c := NewClan(number);
      NewClanLists(w.clans, w.players, p, c);
      forall r: Row ensures Holds(w.clans, r) <==> Holds(w'.clans, r) {
        EmptyClan(w.clans, p, c, r);
      }
    }
  }

  // ---------- Commands ----------

  /** No clan but the one that its clan field names lists a player. */
  lemma ListedWhere(w: World, id: int, j: nat)
    requires Inv(w) && j < |w.clans| && Listed(w.clans[j].members, id)
    ensures id in w.players && RealClan(w.clans, w.players[id].clan) == j
  {
    ListedOnlyThere(w, j, id);
    RealClanAt(w.clans, w.clans[j].number, j);
  }

  lemma NotListed(w: World, id: int)
    requires Inv(w) && (id in w.players ==> !Exists(w.clans, w.players[id].clan))
    ensures forall j | 0 <= j < |w.clans| :: !Listed(w.clans[j].members, id)
  {
    forall j | 0 <= j < |w.clans| ensures !Listed(w.clans[j].members, id) {
      if Listed(w.clans[j].members, id) {
        ListedWhere(w, id, j);
      }
    }
  }

  lemma EnrollInv(w: World, ch: int, vict: int, named: int)
    requires Inv(w)
    ensures Inv(Enroll(w, ch, vict, named))
  {
    if Known(w, ch) && Known(w, vict) {
      var k := RealClan(w.clans, if w.players[ch].admin then named else w.players[ch].clan);
      if k < |w.clans| {
        var v := w.players[vict];
        var own := RealClan(w.clans, v.clan);
        if own < |w.clans| {
          if !Listed(w.clans[own].members, vict) {
            forall j | 0 <= j < |w.clans| ensures !Listed(w.clans[j].members, vict) {
              if Listed(w.clans[j].members, vict) {
                ListedWhere(w, vict, j);
              }
            }
            PlayerChanged(w.clans, w.players, vict, v.(clan := 0));
          }
        } else {
          NotListed(w, vict);
          assert w.clans[k].(members := w.clans[k].members) == w.clans[k];
          assert w.clans[k := w.clans[k]] == w.clans;
          assert CanEnroll(w, ch, vict, k).0 == w;
          if CanEnroll(w, ch, vict, k).1 {
            InductInv(w, k, vict);
          }
        }
      }
    }
  }

  /** The player is listed in a clan other than the named one. */
  predicate ListedElsewhere(w: World, id: int, named: int) {
    exists j :: 0 <= j < |w.clans| && w.clans[j].number != named && Listed(w.clans[j].members, id)
  }

  lemma OneClan(clans: seq<ClanVal>, number: int, j: nat)
    requires NumbersDistinct(clans) && Exists(clans, number) && j < |clans| && clans[j].number == number
    ensures RealClan(clans, number) == j
  {
    RealClanAt(clans, number, j);
  }

  /** Joining keeps lists, clan fields and table in step exactly when the one who joins is not still
      listed in another clan, which only an administrator can be. */
  lemma JoinInv(w: World, ch: int, named: int, password: string)
    requires Inv(w)
    ensures Inv(Join(w, ch, named, password)) <==> !(Joins(w, ch, named, password) && ListedElsewhere(w, ch, named))
    ensures Joins(w, ch, named, password) && ListedElsewhere(w, ch, named) ==> w.players[ch].admin
  {
    if Joins(w, ch, named, password) {
      var k := RealClan(w.clans, named);
      if ListedElsewhere(w, ch, named) {
        var j :| 0 <= j < |w.clans| && w.clans[j].number != named && Listed(w.clans[j].members, ch);
        ListedOnlyThere(w, j, ch);
        var w' := Join(w, ch, named, password);
        assert w'.clans[j] == w.clans[j];
        assert !Belong(w'.clans[j], w'.players) by {
          var i := Find(w.clans[j].members, ch);
          assert w'.clans[j].members[i].idnum == ch && w'.players[ch].clan == named;
        }
      } else {
        if Listed(w.clans[k].members, ch) {
          ListedOnlyThere(w, k, ch);
        }
        forall j | 0 <= j < |w.clans| ensures !Listed(w.clans[j].members, ch) {
          if w.clans[j].number == named {
            OneClan(w.clans, named, j);
          }
        }
        InductInv(w, k, ch);
      }
    }
  }

  lemma DismissInv(w: World, ch: int, vict: int)
    requires Inv(w)
    ensures Inv(Dismiss(w, ch, vict))
  {
    if Dismiss(w, ch, vict) != w {
      LeaveInv(w, RealClan(w.clans, w.players[vict].clan), vict);
    }
  }

  /** The owner and the names of ranks are no part of what the invariant is about. */
  lemma SameMembers(w: World, k: nat, c: ClanVal)
    requires Inv(w) && k < |w.clans|
    requires c.number == w.clans[k].number && c.topRank == w.clans[k].topRank && c.members == w.clans[k].members
    ensures Inv(WithClan(w, k, c))
  {
    assert Belong(w.clans[k], w.players);
    ListsAfter(w.clans, w.players, k, c);
    TableOf(w, k);
    TableAfter(w.clans, w.rows, k, c, w.rows);
  }

  lemma ResignInv(w: World, ch: int, confirmed: bool)
    requires Inv(w)
    ensures Inv(Resign(w, ch, confirmed))
  {
    if Known(w, ch) {
      var k := RealClan(w.clans, w.players[ch].clan);
      if k < |w.clans| {
        var c := w.clans[k];
        SameMembers(w, k, if c.owner == ch then c.(owner := 0) else c);
        LeaveInv(WithClan(w, k, if c.owner == ch then c.(owner := 0) else c), k, ch);
      }
    }
  }

  /** What a promotion comes to, when it changes anything: leadership at the top rank, one more rank
      below it. */
  lemma PromoteIs(w: World, ch: int, vict: int)
    requires Promote(w, ch, vict) != w
    ensures Known(w, ch) && Known(w, vict)
    ensures var k := RealClan(w.clans, w.players[ch].clan);
      && k < |w.clans| && Listed(w.clans[k].members, vict)
      && var i, v := Find(w.clans[k].members, vict), w.players[vict];
      && Promote(w, ch, vict) ==
        if w.clans[k].members[i].rank >= w.clans[k].topRank then WithPlayer(w, vict, v.(leader := true))
        else ChangeRank(w, k, i, w.clans[k].members[i].rank + 1)
  {
  }

  lemma RankBounds(w: World, k: nat, i: nat)
    requires Inv(w) && k < |w.clans| && i < |w.clans[k].members|
    ensures 0 <= w.clans[k].members[i].rank <= w.clans[k].topRank
  {
    assert ClanOk(w.clans[k]);
  }

  lemma RaiseInv(w: World, k: nat, i: nat, id: int)
    requires Inv(w) && k < |w.clans| && i < |w.clans[k].members| && Known(w, id)
    ensures Inv(Raise(w, k, i, id))
  {
    RankBounds(w, k, i);
    if w.clans[k].members[i].rank >= w.clans[k].topRank {
      PlayerChanged(w.clans, w.players, id, w.players[id].(leader := true));
    } else {
      ChangeRankInv(w, k, i, w.clans[k].members[i].rank + 1);
    }
  }

  lemma PromoteInv(w: World, ch: int, vict: int)
    requires Inv(w)
    ensures Inv(Promote(w, ch, vict))
  {
    if Promote(w, ch, vict) != w {
      PromoteIs(w, ch, vict);
      var k := RealClan(w.clans, w.players[ch].clan);
      RaiseInv(w, k, Find(w.clans[k].members, vict), vict);
    }
  }

  /** What a demotion comes to, when it changes anything and no rank is below 0. */
  lemma DemoteIs(w: World, ch: int, vict: int)
    requires Demote(w, ch, vict) != w
    requires forall k, j | 0 <= k < |w.clans| && 0 <= j < |w.clans[k].members| :: w.clans[k].members[j].rank >= 0
    ensures Known(w, ch) && Known(w, vict)
    ensures var k := RealClan(w.clans, w.players[ch].clan);
      && k < |w.clans| && Listed(w.clans[k].members, vict)
      && var i := Find(w.clans[k].members, vict);
      && w.clans[k].members[i].rank > 0
      && Demote(w, ch, vict) == ChangeRank(w, k, i, w.clans[k].members[i].rank - 1)
  {
    var k := RealClan(w.clans, w.players[ch].clan);
    assert w.clans[k].members[Find(w.clans[k].members, vict)].rank >= 0;
  }

  lemma DemoteInv(w: World, ch: int, vict: int)
    requires Inv(w)
    ensures Inv(Demote(w, ch, vict))
  {
    if Demote(w, ch, vict) != w {
      forall k, j | 0 <= k < |w.clans| && 0 <= j < |w.clans[k].members| ensures w.clans[k].members[j].rank >= 0 {
        assert ClanOk(w.clans[k]);
      }
      DemoteIs(w, ch, vict);
      var k := RealClan(w.clans, w.players[ch].clan);
      var i := Find(w.clans[k].members, vict);
      assert ClanOk(w.clans[k]);
      ChangeRankInv(w, k, i, w.clans[k].members[i].rank - 1);
    }
  }

  lemma ClanMailInv(w: World, ch: int)
    requires Inv(w)
    ensures Inv(ClanMail(w, ch))
  {
    if Known(w, ch) {
      var k := RealClan(w.clans, w.players[ch].clan);
      if k < |w.clans| && Listed(w.clans[k].members, ch) {
        var i := Find(w.clans[k].members, ch);
        NoMailInv(w, k, i, !w.clans[k].members[i].noMail);
      }
    }
  }

  lemma SetTitleInv(w: World, ch: int, number: int, rank: int, name: string)
    requires Inv(w)
    ensures Inv(SetTitle(w, ch, number, rank, name))
  {
    if SetTitle(w, ch, number, rank, name) != w {
      var k := Edited(w, ch, number);
      SameMembers(w, k, w.clans[k].(names := w.clans[k].names[rank := name]));
    }
  }

  lemma EditInv(w: World, ch: int, number: int, top: int, id: int)
    requires Inv(w)
    ensures Inv(SetTop(w, ch, number, top)) && Inv(RemoveListed(w, ch, number, id)) && Inv(Delete(w, ch, number))
  {
    var k := Edited(w, ch, number);
    if k < |w.clans| {
      if 0 <= top < NUM_CLAN_RANKS {
        SetTopInv(w, k, top);
      }
      RemoveInv(w, k, id);
      DeleteInv(w, k);
    }
  }

  // ---------- Runs ----------

  /** Every command but a join by someone still listed in another clan. */
  predicate Admissible(w: World, c: Command) {
    c.CmdJoin? ==> !(Joins(w, c.ch, c.named, c.password) && ListedElsewhere(w, c.ch, c.named))
  }

  predicate AdmissibleRun(w: World, cs: seq<Command>)
    decreases |cs|
  {
    cs == [] || (Admissible(w, cs[0]) && AdmissibleRun(Apply(w, cs[0]), cs[1..]))
  }

  /** A command keeps the invariant exactly when it is admissible. */
  lemma ApplyInv(w: World, c: Command)
    requires Inv(w)
    ensures Inv(Apply(w, c)) <==> Admissible(w, c)
  {
    match c
    case CmdEnroll(ch, vict, named) => EnrollInv(w, ch, vict, named);
    case CmdJoin(ch, named, password) => JoinInv(w, ch, named, password);
    case CmdDismiss(ch, vict) => DismissInv(w, ch, vict);
    case CmdResign(ch, confirmed) => ResignInv(w, ch, confirmed);
    case CmdPromote(ch, vict) => PromoteInv(w, ch, vict);
    case CmdDemote(ch, vict) => DemoteInv(w, ch, vict);
    case CmdClanMail(ch) => ClanMailInv(w, ch);
    case CmdSetTop(ch, number, top) => EditInv(w, ch, number, top, 0);
    case CmdSetTitle(ch, number, rank, name) => SetTitleInv(w, ch, number, rank, name);
    case CmdRemove(ch, number, id) => EditInv(w, ch, number, 0, id);
    case CmdDelete(ch, number) => EditInv(w, ch, number, 0, 0);
    case CmdCreate(number) => CreateInv(w, number);
  }

  /** Over any admissible run the table equals the lists, which stay sorted, bounded by the top rank
      and free of repeated numbers. */
  lemma {:induction false} RunInv(w: World, cs: seq<Command>)
    requires Inv(w) && AdmissibleRun(w, cs)
    ensures Inv(Run(w, cs))
    decreases |cs|
  {
    if cs != [] {
      ApplyInv(w, cs[0]);
      RunInv(Apply(w, cs[0]), cs[1..]);
    }
  }
}
