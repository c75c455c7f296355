/** How large clans grow: the limit is tested before the new member is counted. */
module ClanLimit {
  import opened ClanList
  import opened ClanRules
  import opened ClanRuns

  /** No clan has more members than the bound. */
  predicate AtMost(clans: seq<ClanVal>, bound: nat) {
    forall k | 0 <= k < |clans| :: |clans[k].members| <= bound
  }

  /** The clan that the one who enrolls somebody means. */
  function Enrolling(w: World, ch: int, named: int): (k: nat)
    requires Known(w, ch)
    ensures k <= |w.clans|
  {
    RealClan(w.clans, if w.players[ch].admin then named else w.players[ch].clan)
  }

  /** The command adds a member to a clan that then has one more than the bound: somebody joins a clan of
      exactly so many members, or is enrolled in one of so many others. */
  predicate Overfills(w: World, c: Command, bound: nat) {
    match c
    case CmdJoin(ch, named, password) =>
      Joins(w, ch, named, password) && |w.clans[RealClan(w.clans, named)].members| == bound
    case CmdEnroll(ch, vict, named) =>
      && Known(w, ch) && Known(w, vict)
      && var k := Enrolling(w, ch, named);
      && k < |w.clans| && CanEnroll(w, ch, vict, k).1 && |Without(w.clans[k].members, vict)| == bound
    case _ => false
  }

  // ---------- One command ----------

  lemma SortLength(ms: seq<MemberVal>)
    ensures |SortByRank(ms)| == |ms|
  {
    SortCorrect(ms);
    assert |multiset(SortByRank(ms))| == |multiset(ms)|;
  }

  lemma InductLimit(w: World, k: nat, id: int, bound: nat)
    requires k < |w.clans| && Known(w, id) && AtMost(w.clans, bound)
    ensures AtMost(Induct(w, k, id).clans, bound) <==> |w.clans[k].members| != bound
  {
    var clans := Induct(w, k, id).clans;
    SortLength([MemberVal(id, 0, false)] + w.clans[k].members);
    assert |clans[k].members| == |w.clans[k].members| + 1;
  }

  lemma JoinLimit(w: World, ch: int, named: int, password: string, bound: nat)
    requires AtMost(w.clans, bound)
    ensures AtMost(Join(w, ch, named, password).clans, bound) <==> !Overfills(w, CmdJoin(ch, named, password), bound)
  {
    if Joins(w, ch, named, password) {
      InductLimit(w, RealClan(w.clans, named), ch, bound);
    }
  }

  /** What testing whether somebody can be enrolled leaves of the clan. */
  lemma CanEnrollLimit(w: World, ch: int, vict: int, k: nat, bound: nat)
    requires k < |w.clans| && Known(w, ch) && Known(w, vict) && AtMost(w.clans, bound)
    ensures var r := CanEnroll(w, ch, vict, k);
      AtMost(r.0.clans, bound) && (r.1 ==> r.0.clans[k].members == Without(w.clans[k].members, vict))
  {
  }

  lemma EnrollLimit(w: World, ch: int, vict: int, named: int, bound: nat)
    requires AtMost(w.clans, bound)
    ensures AtMost(Enroll(w, ch, vict, named).clans, bound) <==> !Overfills(w, CmdEnroll(ch, vict, named), bound)
  {
    if Known(w, ch) && Known(w, vict) {
      var k := Enrolling(w, ch, named);
      if k < |w.clans| {
        var r := CanEnroll(w, ch, vict, k);
        CanEnrollLimit(w, ch, vict, k, bound);
        if r.1 {
          InductLimit(r.0, k, vict, bound);
        }
      }
    }
  }

  lemma ChangeRankLimit(w: World, k: nat, i: nat, rank: int, bound: nat)
    requires k < |w.clans| && i < |w.clans[k].members| && AtMost(w.clans, bound)
    ensures AtMost(ChangeRank(w, k, i, rank).clans, bound)
  {
    SortLength(SetRank(w.clans[k].members, i, rank));
  }

  lemma PromoteLimit(w: World, ch: int, vict: int, bound: nat)
    requires AtMost(w.clans, bound)
    ensures AtMost(Promote(w, ch, vict).clans, bound)
  {
    if Promote(w, ch, vict) != w {
      PromoteIs(w, ch, vict);
      var k := RealClan(w.clans, w.players[ch].clan);
      var i := Find(w.clans[k].members, vict);
      ChangeRankLimit(w, k, i, w.clans[k].members[i].rank + 1, bound);
    }
  }

  lemma LowerLimit(w: World, k: nat, i: nat, bound: nat)
    requires k < |w.clans| && i < |w.clans[k].members| && AtMost(w.clans, bound)
    ensures AtMost(Lower(w, k, i).clans, bound)
  {
    ChangeRankLimit(w, k, i, w.clans[k].members[i].rank - 1, bound);
  }

  lemma DemoteLimit(w: World, ch: int, vict: int, bound: nat)
    requires AtMost(w.clans, bound)
    ensures AtMost(Demote(w, ch, vict).clans, bound)
  {
    if Known(w, ch) && Known(w, vict) {
      var k := RealClan(w.clans, w.players[ch].clan);
      if k < |w.clans| && Listed(w.clans[k].members, vict) {
        var i := Find(w.clans[k].members, vict);
        ChangeRankLimit(w, k, i, w.clans[k].members[i].rank - 1, bound);
        LowerLimit(w, k, i, bound);
      }
    }
  }

  lemma LeavingLimit(w: World, ch: int, vict: int, confirmed: bool, bound: nat)
    requires AtMost(w.clans, bound)
    ensures AtMost(Dismiss(w, ch, vict).clans, bound) && AtMost(Resign(w, ch, confirmed).clans, bound)
  {
  }

  lemma EditLimit(w: World, c: Command, bound: nat)
    requires AtMost(w.clans, bound)
    requires c.CmdClanMail? || c.CmdSetTop? || c.CmdSetTitle? || c.CmdRemove? || c.CmdDelete? || c.CmdCreate?
    ensures AtMost(Apply(w, c).clans, bound)
  {
  }

  /** A command keeps every clan within a bound exactly when it does not overfill one, whoever gives it. */
  lemma ApplyLimit(w: World, c: Command, bound: nat)
    requires AtMost(w.clans, bound)
    ensures AtMost(Apply(w, c).clans, bound) <==> !Overfills(w, c, bound)
  {
    match c
    case CmdEnroll(ch, vict, named) => EnrollLimit(w, ch, vict, named, bound);
    case CmdJoin(ch, named, password) => JoinLimit(w, ch, named, password, bound);
    case CmdDismiss(ch, vict) => LeavingLimit(w, ch, vict, true, bound);
    case CmdResign(ch, confirmed) => LeavingLimit(w, ch, ch, confirmed, bound);
    case CmdPromote(ch, vict) => PromoteLimit(w, ch, vict, bound);
    case CmdDemote(ch, vict) => DemoteLimit(w, ch, vict, bound);
    case _ => EditLimit(w, c, bound);
  }

  // ---------- Runs ----------

  /** Every clan is within the bound before and after each command of the run. */
  predicate StaysWithin(w: World, cs: seq<Command>, bound: nat)
    decreases |cs|
  {
    AtMost(w.clans, bound) && (cs != [] ==> StaysWithin(Apply(w, cs[0]), cs[1..], bound))
  }

  /** No command of the run overfills a clan when its turn comes. */
  predicate NeverOverfills(w: World, cs: seq<Command>, bound: nat)
    decreases |cs|
  {
    cs != [] ==> !Overfills(w, cs[0], bound) && NeverOverfills(Apply(w, cs[0]), cs[1..], bound)
  }

  /** Over a run clans stay within a bound exactly when no command overfills one. */
  lemma {:induction false} RunLimit(w: World, cs: seq<Command>, bound: nat)
    requires AtMost(w.clans, bound)
    ensures StaysWithin(w, cs, bound) <==> NeverOverfills(w, cs, bound)
    decreases |cs|
  {
    if cs != [] {
      ApplyLimit(w, cs[0], bound);
      if AtMost(Apply(w, cs[0]).clans, bound) {
        RunLimit(Apply(w, cs[0]), cs[1..], bound);
      }
    }
  }

  lemma {:induction false} EndWithin(w: World, cs: seq<Command>, bound: nat)
    requires StaysWithin(w, cs, bound)
    ensures AtMost(Run(w, cs).clans, bound)
    decreases |cs|
  {
    if cs != [] {
      EndWithin(Apply(w, cs[0]), cs[1..], bound);
    }
  }

  predicate ByAdmin(w: World, c: Command) {
    (c.CmdEnroll? || c.CmdJoin?) && Known(w, c.ch) && w.players[c.ch].admin
  }

  predicate NotByAdmins(w: World, cs: seq<Command>)
    decreases |cs|
  {
    cs == [] || (!ByAdmin(w, cs[0]) && NotByAdmins(Apply(w, cs[0]), cs[1..]))
  }

  /** The test lets all but administrators add a member as long as the limit is not exceeded yet. */
  lemma OnlyAdmins(w: World, c: Command, bound: nat)
    requires bound > MAX_CLAN_MEMBERS && Overfills(w, c, bound)
    ensures ByAdmin(w, c)
  {
  }

  lemma {:induction false} NoAdminOverfills(w: World, cs: seq<Command>, bound: nat)
    requires bound > MAX_CLAN_MEMBERS && NotByAdmins(w, cs)
    ensures NeverOverfills(w, cs, bound)
    decreases |cs|
  {
    if cs != [] {
      if Overfills(w, cs[0], bound) {
        OnlyAdmins(w, cs[0], bound);
      }
      NoAdminOverfills(Apply(w, cs[0]), cs[1..], bound);
    }
  }

  /** As long as no administrator adds members, no clan exceeds the limit by more than one. */
  lemma RunSmall(w: World, cs: seq<Command>)
    requires AtMost(w.clans, MAX_CLAN_MEMBERS + 1) && NotByAdmins(w, cs)
    ensures AtMost(Run(w, cs).clans, MAX_CLAN_MEMBERS + 1)
  {
    NoAdminOverfills(w, cs, MAX_CLAN_MEMBERS + 1);
    RunLimit(w, cs, MAX_CLAN_MEMBERS + 1);
    EndWithin(w, cs, MAX_CLAN_MEMBERS + 1);
  }

  // ---------- A clan that grows past the limit ----------

  function Recruit(clan: int): Player {
    Player(clan, false, false, false, false, LVL_CAN_CLAN, 0, false, true)
  }

  function Recruits(n: nat): (ms: seq<MemberVal>)
    ensures |ms| == n && forall i | 0 <= i < n :: ms[i] == MemberVal(i + 1, 0, false)
  {
    seq(n, i => MemberVal(i + 1, 0, false))
  }

  function Crowd(n: nat): (players: map<int, Player>)
    ensures forall id :: id in players <==> 1 <= id <= n
    ensures forall id | id in players :: players[id] == Recruit(1)
  {
    if n == 0 then map[] else Crowd(n - 1)[n := Recruit(1)]
  }

  /** A clan of n members, all of rank 0, the first of them its owner, and one more player. */
  function FullClan(n: nat): World {
    var ms := Recruits(n);
    World([ClanVal(1, "x", 0, 1, NO_NAMES, ms)],
          Crowd(n)[n + 1 := Recruit(0)],
          set m | m in ms :: Row(1, m.idnum, m.rank, m.noMail), {})
  }

  lemma FullClanRow(n: nat, r: Row)
    ensures r in FullClan(n).rows <==> Holds(FullClan(n).clans, r)
  {
    RealClanAt(FullClan(n).clans, 1, 0);
    if r in FullClan(n).rows {
      var m :| m in Recruits(n) && r == Row(1, m.idnum, m.rank, m.noMail);
      assert RowMember(r) == m;
    }
    if Holds(FullClan(n).clans, r) {
      assert r == Row(1, r.player, RowMember(r).rank, RowMember(r).noMail);
    }
  }

  lemma FullClanInv(n: nat)
    ensures Inv(FullClan(n))
  {
    var w := FullClan(n);
    forall r: Row ensures r in w.rows <==> Holds(w.clans, r) {
      FullClanRow(n, r);
    }
    assert ClanOk(w.clans[0]);
    assert Belong(w.clans[0], w.players);
  }

  lemma Unlisted(n: nat)
    ensures !Listed(FullClan(n).clans[0].members, n + 1)
  {
  }

  /** A clan of exactly the limit: a new player joins it with the password, or its owner enrolls the player,
      and it has one member more. */
  lemma PastTheLimit()
    ensures var w := FullClan(MAX_CLAN_MEMBERS);
      && Inv(w) && AtMost(w.clans, MAX_CLAN_MEMBERS)
      && Overfills(w, CmdJoin(MAX_CLAN_MEMBERS + 1, 1, "x"), MAX_CLAN_MEMBERS)
      && Overfills(w, CmdEnroll(1, MAX_CLAN_MEMBERS + 1, 1), MAX_CLAN_MEMBERS)
      && !AtMost(Apply(w, CmdJoin(MAX_CLAN_MEMBERS + 1, 1, "x")).clans, MAX_CLAN_MEMBERS)
      && !AtMost(Apply(w, CmdEnroll(1, MAX_CLAN_MEMBERS + 1, 1)).clans, MAX_CLAN_MEMBERS)
  {
    var n: nat := MAX_CLAN_MEMBERS;
    GrowsPast(n);
  }

  lemma GrowsPast(n: nat)
    requires 0 < n <= MAX_CLAN_MEMBERS
    ensures var w := FullClan(n);
      && Inv(w) && AtMost(w.clans, n)
      && Overfills(w, CmdJoin(n + 1, 1, "x"), n) && Overfills(w, CmdEnroll(1, n + 1, 1), n)
      && !AtMost(Apply(w, CmdJoin(n + 1, 1, "x")).clans, n) && !AtMost(Apply(w, CmdEnroll(1, n + 1, 1)).clans, n)
  {
    var w := FullClan(n);
    FullClanInv(n);
    Unlisted(n);
    RealClanAt(w.clans, 1, 0);
    RealClanAt(w.clans, 0, 1);
    assert w.players[n + 1] == Recruit(0) && w.players[1] == Recruit(1);
    ApplyLimit(w, CmdJoin(n + 1, 1, "x"), n);
    ApplyLimit(w, CmdEnroll(1, n + 1, 1), n);
  }
}
