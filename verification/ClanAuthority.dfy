/** Who may raise whom: what holds over runs in which leaders, owners and administrators promote nobody. */
module ClanAuthority {
  import opened ClanList
  import opened ClanRules
  import opened ClanRuns

  /** Neither leader nor administrator nor owner of its clan. */
  predicate Ordinary(w: World, ch: int) {
    Known(w, ch) ==>
      && !w.players[ch].admin && !w.players[ch].leader
      && (Exists(w.clans, w.players[ch].clan) ==> w.clans[RealClan(w.clans, w.players[ch].clan)].owner != ch)
  }

  /** Nobody has become a leader. */
  predicate NoNewLeader(w: World, w': World) {
    forall id | id in w'.players :: id in w.players && (w'.players[id].leader ==> w.players[id].leader)
  }

  /** No member of the clan with this number has a rank above top. */
  predicate Within(clans: seq<ClanVal>, number: int, top: int) {
    forall k | 0 <= k < |clans| && clans[k].number == number :: RanksWithin(clans[k].members, top)
  }

  predicate RanksWithin(ms: seq<MemberVal>, top: int) {
    forall i | 0 <= i < |ms| :: ms[i].rank <= top
  }

  predicate Keeps(w: World, w': World, number: int, top: int) {
    NoNewLeader(w, w') && (Within(w.clans, number, top) ==> Within(w'.clans, number, top))
  }

  lemma WithinSub(ms: seq<MemberVal>, more: seq<MemberVal>, top: int)
    requires RanksWithin(more, top) && forall x | x in ms :: x in more || x.rank <= top
    ensures RanksWithin(ms, top)
  {
    forall i | 0 <= i < |ms| ensures ms[i].rank <= top {
      assert ms[i] in ms;
    }
  }

  lemma InductKeeps(w: World, k: nat, id: int, number: int, top: int)
    requires k < |w.clans| && Known(w, id) && top >= 0
    ensures Keeps(w, Induct(w, k, id), number, top)
  {
    var ms := [MemberVal(id, 0, false)] + w.clans[k].members;
    SortMembers(ms);
    if RanksWithin(w.clans[k].members, top) {
      WithinSub(SortByRank(ms), w.clans[k].members, top);
    }
  }

  lemma WithoutWithin(ms: seq<MemberVal>, id: int, top: int)
    requires RanksWithin(ms, top)
    ensures RanksWithin(Without(ms, id), top)
  {
  }

  lemma EnrollKeeps(w: World, ch: int, vict: int, named: int, number: int, top: int)
    requires top >= 0
    ensures Keeps(w, Enroll(w, ch, vict, named), number, top)
  {
    if Known(w, ch) && Known(w, vict) {
      var k := RealClan(w.clans, if w.players[ch].admin then named else w.players[ch].clan);
      if k < |w.clans| {
        var r := CanEnroll(w, ch, vict, k);
        if RanksWithin(w.clans[k].members, top) {
          WithoutWithin(w.clans[k].members, vict, top);
        }
        assert Keeps(w, r.0, number, top);
        InductKeeps(r.0, k, vict, number, top);
      }
    }
  }

  lemma LeaveKeeps(w: World, k: nat, id: int, number: int, top: int)
    requires k < |w.clans| && Known(w, id)
    ensures Keeps(w, Leave(w, k, id), number, top)
  {
    if RanksWithin(w.clans[k].members, top) {
      WithoutWithin(w.clans[k].members, id, top);
    }
  }

  lemma ResignKeeps(w: World, ch: int, confirmed: bool, number: int, top: int)
    ensures Keeps(w, Resign(w, ch, confirmed), number, top)
  {
    if Resign(w, ch, confirmed) != w {
      var k := RealClan(w.clans, w.players[ch].clan);
      var c := w.clans[k];
      LeaveKeeps(WithClan(w, k, if c.owner == ch then c.(owner := 0) else c), k, ch, number, top);
    }
  }

  lemma ChangeRankKeeps(w: World, k: nat, i: nat, rank: int, number: int, top: int)
    requires Inv(w) && k < |w.clans| && i < |w.clans[k].members| && 0 <= rank <= w.clans[k].topRank
    requires exists j :: 0 <= j < |w.clans[k].members| && rank <= w.clans[k].members[j].rank
    ensures Keeps(w, ChangeRank(w, k, i, rank), number, top)
  {
    var ms := w.clans[k].members;
    assert ClanOk(w.clans[k]);
    RankMembers(ms, i, rank, w.clans[k].topRank);
    if RanksWithin(ms, top) {
      WithinSub(SortByRank(SetRank(ms, i, rank)), ms, top);
    }
  }

  /** Someone with no special standing raises a member at most to their own rank, and makes no leader. */
  lemma OrdinaryPromote(w: World, ch: int, vict: int)
    requires Inv(w) && Ordinary(w, ch) && Promote(w, ch, vict) != w
    ensures var k := RealClan(w.clans, w.players[ch].clan);
      && k < |w.clans| && Listed(w.clans[k].members, ch) && Listed(w.clans[k].members, vict)
      && var own, i := w.clans[k].members[Find(w.clans[k].members, ch)].rank, Find(w.clans[k].members, vict);
      && w.clans[k].members[i].rank + 1 <= own <= w.clans[k].topRank
      && Promote(w, ch, vict) == ChangeRank(w, k, i, w.clans[k].members[i].rank + 1)
  {
    PromoteIs(w, ch, vict);
    var k := RealClan(w.clans, w.players[ch].clan);
    assert ClanOk(w.clans[k]);
  }

  lemma PromoteKeeps(w: World, ch: int, vict: int, number: int, top: int)
    requires Inv(w) && Ordinary(w, ch)
    ensures Keeps(w, Promote(w, ch, vict), number, top)
  {
    if Promote(w, ch, vict) != w {
      OrdinaryPromote(w, ch, vict);
      var k := RealClan(w.clans, w.players[ch].clan);
      assert ClanOk(w.clans[k]);
      var i := Find(w.clans[k].members, vict);
      ChangeRankKeeps(w, k, i, w.clans[k].members[i].rank + 1, number, top);
    }
  }

  lemma DemoteKeeps(w: World, ch: int, vict: int, number: int, top: int)
    requires Inv(w)
    ensures Keeps(w, Demote(w, ch, vict), number, top)
  {
    if Demote(w, ch, vict) != w {
      forall k, j | 0 <= k < |w.clans| && 0 <= j < |w.clans[k].members| ensures w.clans[k].members[j].rank >= 0 {
        assert ClanOk(w.clans[k]);
      }
      DemoteIs(w, ch, vict);
      var k := RealClan(w.clans, w.players[ch].clan);
      var i := Find(w.clans[k].members, vict);
      assert ClanOk(w.clans[k]);
      ChangeRankKeeps(w, k, i, w.clans[k].members[i].rank - 1, number, top);
    }
  }

  lemma EditKeeps(w: World, ch: int, edited: int, newTop: int, id: int, number: int, top: int)
    ensures Keeps(w, SetTop(w, ch, edited, newTop), number, top)
    ensures Keeps(w, RemoveListed(w, ch, edited, id), number, top)
    ensures Keeps(w, Delete(w, ch, edited), number, top)
  {
    var k := Edited(w, ch, edited);
    if k < |w.clans| && RanksWithin(w.clans[k].members, top) {
      WithoutWithin(w.clans[k].members, id, top);
    }
  }

  lemma SetTitleKeeps(w: World, ch: int, edited: int, rank: int, name: string, number: int, top: int)
    ensures Keeps(w, SetTitle(w, ch, edited, rank, name), number, top)
  {
  }

  lemma MailAndCreateKeep(w: World, ch: int, created: int, number: int, top: int)
    ensures Keeps(w, ClanMail(w, ch), number, top)
    ensures Keeps(w, Create(w, created), number, top)
  {
  }

  /** Every promotion is tried by someone with no special standing at that time. */
  predicate OrdinaryRun(w: World, cs: seq<Command>)
    decreases |cs|
  {
    cs == [] || ((cs[0].CmdPromote? ==> Ordinary(w, cs[0].ch)) && OrdinaryRun(Apply(w, cs[0]), cs[1..]))
  }

  lemma ApplyKeeps(w: World, c: Command, number: int, top: int)
    requires Inv(w) && top >= 0 && (c.CmdPromote? ==> Ordinary(w, c.ch))
    ensures Keeps(w, Apply(w, c), number, top)
  {
    match c
    case CmdEnroll(ch, vict, named) => EnrollKeeps(w, ch, vict, named, number, top);
    case CmdJoin(ch, named, password) =>
      if Joins(w, ch, named, password) {
        InductKeeps(w, RealClan(w.clans, named), ch, number, top);
      }
    case CmdDismiss(ch, vict) =>
      if Dismiss(w, ch, vict) != w {
        LeaveKeeps(w, RealClan(w.clans, w.players[vict].clan), vict, number, top);
      }
    case CmdResign(ch, confirmed) => ResignKeeps(w, ch, confirmed, number, top);
    case CmdPromote(ch, vict) => PromoteKeeps(w, ch, vict, number, top);
    case CmdDemote(ch, vict) => DemoteKeeps(w, ch, vict, number, top);
    case CmdClanMail(ch) => MailAndCreateKeep(w, ch, 0, number, top);
    case CmdSetTop(ch, edited, newTop) => EditKeeps(w, ch, edited, newTop, 0, number, top);
    case CmdSetTitle(ch, edited, rank, name) => SetTitleKeeps(w, ch, edited, rank, name, number, top);
    case CmdRemove(ch, edited, id) => EditKeeps(w, ch, edited, 0, id, number, top);
    case CmdDelete(ch, edited) => EditKeeps(w, ch, edited, 0, 0, number, top);
    case CmdCreate(created) => MailAndCreateKeep(w, 0, created, number, top);
  }

  /** Over a run in which only members without special standing promote, nobody becomes a leader and no
      clan gets a rank higher than all that it had. */
  lemma {:induction false} OrdinaryRunKeeps(w: World, cs: seq<Command>, number: int, top: int)
    requires Inv(w) && AdmissibleRun(w, cs) && OrdinaryRun(w, cs) && top >= 0
    ensures Keeps(w, Run(w, cs), number, top)
    decreases |cs|
  {
    if cs != [] {
      var w1 := Apply(w, cs[0]);
      ApplyKeeps(w, cs[0], number, top);
      ApplyInv(w, cs[0]);
      OrdinaryRunKeeps(w1, cs[1..], number, top);
      var w2 := Run(w1, cs[1..]);
      forall id | id in w2.players ensures id in w.players && (w2.players[id].leader ==> w.players[id].leader) {
        assert id in w1.players;
      }
    }
  }
}
