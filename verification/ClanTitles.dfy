/** The names of ranks over runs of clan commands: the clan_ranks table equals the names in memory. */
module ClanTitles {
  import opened ClanList
  import opened ClanRules
  import opened ClanRuns

  predicate NamesOk(c: ClanVal) {
    && |c.names| == NUM_CLAN_RANKS
    && forall i | 0 <= i < NUM_CLAN_RANKS && i > c.topRank :: c.names[i] == ""
  }

  predicate AllNamesOk(clans: seq<ClanVal>) {
    forall k | 0 <= k < |clans| :: NamesOk(clans[k])
  }

  /** The clan has this name for the rank. */
  predicate Names(c: ClanVal, t: Title) {
    0 <= t.rank < |c.names| && c.names[t.rank] == t.name != ""
  }

  /** The row says what the names in memory say. */
  predicate TitleHolds(clans: seq<ClanVal>, t: Title) {
    Exists(clans, t.clan) && Names(clans[RealClan(clans, t.clan)], t)
  }

  ghost predicate TitlesMatch(clans: seq<ClanVal>, titles: set<Title>) {
    forall t: Title :: t in titles <==> TitleHolds(clans, t)
  }

  ghost predicate Titled(w: World) {
    AllNamesOk(w.clans) && TitlesMatch(w.clans, w.titles)
  }

  // ---------- Commands that leave names alone ----------

  /** The same clans but for members and owner. */
  predicate SameNames(clans: seq<ClanVal>, clans': seq<ClanVal>) {
    && |clans| == |clans'|
    && forall k | 0 <= k < |clans| ::
         && clans[k].number == clans'[k].number && clans[k].names == clans'[k].names
         && clans[k].topRank == clans'[k].topRank
  }

  lemma SameNumbers(clans: seq<ClanVal>, clans': seq<ClanVal>, number: int)
    requires SameNames(clans, clans')
    ensures RealClan(clans', number) == RealClan(clans, number)
  {
    RealClanAt(clans', number, RealClan(clans, number));
  }

  lemma SameTitled(w: World, w': World)
    requires Titled(w) && SameNames(w.clans, w'.clans) && w.titles == w'.titles
    ensures Titled(w')
  {
    forall t: Title ensures TitleHolds(w'.clans, t) <==> TitleHolds(w.clans, t) {
      SameNumbers(w.clans, w'.clans, t.clan);
    }
  }

  lemma InductNames(w: World, k: nat, id: int)
    requires k < |w.clans| && Known(w, id)
    ensures SameNames(w.clans, Induct(w, k, id).clans) && Induct(w, k, id).titles == w.titles
  {
  }

  lemma CanEnrollNames(w: World, ch: int, vict: int, k: nat)
    requires k < |w.clans| && Known(w, ch) && Known(w, vict)
    ensures var r := CanEnroll(w, ch, vict, k); SameNames(w.clans, r.0.clans) && r.0.titles == w.titles
  {
  }

  lemma EnrollNames(w: World, ch: int, vict: int, named: int)
    ensures SameNames(w.clans, Enroll(w, ch, vict, named).clans) && Enroll(w, ch, vict, named).titles == w.titles
  {
    if Known(w, ch) && Known(w, vict) {
      var k := RealClan(w.clans, if w.players[ch].admin then named else w.players[ch].clan);
      if k < |w.clans| {
        var r := CanEnroll(w, ch, vict, k);
        CanEnrollNames(w, ch, vict, k);
        InductNames(r.0, k, vict);
      }
    }
  }

  lemma LeaveNames(w: World, k: nat, id: int)
    requires k < |w.clans| && Known(w, id)
    ensures SameNames(w.clans, Leave(w, k, id).clans) && Leave(w, k, id).titles == w.titles
  {
  }

  lemma DismissNames(w: World, ch: int, vict: int)
    ensures SameNames(w.clans, Dismiss(w, ch, vict).clans) && Dismiss(w, ch, vict).titles == w.titles
  {
    if Dismiss(w, ch, vict) != w {
      LeaveNames(w, RealClan(w.clans, w.players[vict].clan), vict);
    }
  }

  lemma ResignNames(w: World, ch: int, confirmed: bool)
    ensures SameNames(w.clans, Resign(w, ch, confirmed).clans) && Resign(w, ch, confirmed).titles == w.titles
  {
    if Resign(w, ch, confirmed) != w {
      var k := RealClan(w.clans, w.players[ch].clan);
      var c := w.clans[k];
      LeaveNames(WithClan(w, k, if c.owner == ch then c.(owner := 0) else c), k, ch);
    }
  }

  lemma ChangeRankNames(w: World, k: nat, i: nat, rank: int)
    requires k < |w.clans| && i < |w.clans[k].members|
    ensures SameNames(w.clans, ChangeRank(w, k, i, rank).clans) && ChangeRank(w, k, i, rank).titles == w.titles
  {
  }

  lemma PromoteNames(w: World, ch: int, vict: int)
    ensures SameNames(w.clans, Promote(w, ch, vict).clans) && Promote(w, ch, vict).titles == w.titles
  {
    if Promote(w, ch, vict) != w {
      PromoteIs(w, ch, vict);
      var k := RealClan(w.clans, w.players[ch].clan);
      var i := Find(w.clans[k].members, vict);
      ChangeRankNames(w, k, i, w.clans[k].members[i].rank + 1);
    }
  }

  lemma LowerNames(w: World, k: nat, i: nat)
    requires k < |w.clans| && i < |w.clans[k].members|
    ensures SameNames(w.clans, Lower(w, k, i).clans) && Lower(w, k, i).titles == w.titles
  {
    ChangeRankNames(w, k, i, w.clans[k].members[i].rank - 1);
  }

  lemma DemoteNames(w: World, ch: int, vict: int)
    ensures SameNames(w.clans, Demote(w, ch, vict).clans) && Demote(w, ch, vict).titles == w.titles
  {
    if Known(w, ch) && Known(w, vict) {
      var k := RealClan(w.clans, w.players[ch].clan);
      if k < |w.clans| && Listed(w.clans[k].members, vict) {
        var i := Find(w.clans[k].members, vict);
        ChangeRankNames(w, k, i, w.clans[k].members[i].rank - 1);
        LowerNames(w, k, i);
      }
    }
  }

  lemma MailNames(w: World, ch: int)
    ensures SameNames(w.clans, ClanMail(w, ch).clans) && ClanMail(w, ch).titles == w.titles
  {
  }

  // ---------- Commands that change them ----------

  /** The rows of one clan follow its names, and the others stay. */
  lemma TitlesAfter(clans: seq<ClanVal>, titles: set<Title>, k: nat, c: ClanVal, titles': set<Title>)
    requires k < |clans| && c.number == clans[k].number && c.number != 0 && NumbersDistinct(clans)
    requires TitlesMatch(clans, titles)
    requires forall t: Title | t.clan == c.number :: t in titles' <==> Names(c, t)
    requires forall t: Title | t.clan != c.number :: t in titles' <==> t in titles
    ensures TitlesMatch(clans[k := c], titles')
  {
    forall t: Title ensures t in titles' <==> TitleHolds(clans[k := c], t) {
      RealClanSame(clans, k, c, t.clan);
      if t.clan == c.number {
        RealClanAt(clans, t.clan, k);
      }
    }
  }

  lemma TitlesOf(w: World, k: nat)
    requires Inv(w) && Titled(w) && k < |w.clans|
    ensures forall t: Title | t.clan == w.clans[k].number :: t in w.titles <==> Names(w.clans[k], t)
  {
    RealClanAt(w.clans, w.clans[k].number, k);
  }

  lemma OneTitled(w: World, k: nat, c: ClanVal, titles: set<Title>)
    requires Inv(w) && Titled(w) && k < |w.clans| && c.number == w.clans[k].number && NamesOk(c)
    requires TitlesMatch(w.clans[k := c], titles)
    ensures AllNamesOk(w.clans[k := c]) && TitlesMatch(w.clans[k := c], titles)
  {
  }

  lemma SetTopTitled(w: World, ch: int, number: int, top: int)
    requires Inv(w) && Titled(w)
    ensures Titled(SetTop(w, ch, number, top))
  {
    var k := Edited(w, ch, number);
    if k < |w.clans| && 0 <= top < NUM_CLAN_RANKS {
      var c := w.clans[k];
      var c' := c.(topRank := top, names := CutNames(c.names, top), members := ClampAll(c.members, top));
      TitlesOf(w, k);
      assert NamesOk(c);
      TitlesAfter(w.clans, w.titles, k, c', CutTitles(w.titles, number, top));
      OneTitled(w, k, c', CutTitles(w.titles, number, top));
    }
  }

  lemma RenamedTitles(w: World, k: nat, rank: int, name: string, t: Title)
    requires Inv(w) && Titled(w) && k < |w.clans| && 0 <= rank < NUM_CLAN_RANKS && w.clans[k].names[rank] != ""
    ensures var number := w.clans[k].number;
      t in RenameTitle(w.titles, number, rank, name) <==>
        if t.clan == number && t.rank == rank then t.name == name else t in w.titles
  {
    var c := w.clans[k];
    var was := Title(c.number, rank, c.names[rank]);
    TitlesOf(w, k);
    assert was in w.titles && Renamed(was, c.number, rank, name) == Title(c.number, rank, name);
    if t in w.titles {
      assert Renamed(t, c.number, rank, name) == t || (t.clan == c.number && t.rank == rank);
    }
  }

  lemma SetTitleTitled(w: World, ch: int, number: int, rank: int, name: string)
    requires Inv(w) && Titled(w)
    ensures Titled(SetTitle(w, ch, number, rank, name))
  {
    var k := Edited(w, ch, number);
    if k < |w.clans| && 0 <= rank <= w.clans[k].topRank && name != "" && |name| < MAX_CLAN_RANKNAME {
      var c := w.clans[k];
      assert ClanOk(c) && NamesOk(c);
      var c' := c.(names := c.names[rank := name]);
      var titles := SetTitle(w, ch, number, rank, name).titles;
      TitlesOf(w, k);
      forall t: Title
        ensures t in titles <==> if t.clan == number && t.rank == rank then t.name == name else t in w.titles
      {
        if c.names[rank] != "" {
          RenamedTitles(w, k, rank, name, t);
        }
      }
      TitlesAfter(w.clans, w.titles, k, c', titles);
      OneTitled(w, k, c', titles);
    }
  }

  lemma TitleSomewhere(clans: seq<ClanVal>, t: Title)
    requires NumbersDistinct(clans)
    ensures TitleHolds(clans, t) <==>
      t.clan != 0 && exists k :: 0 <= k < |clans| && clans[k].number == t.clan && Names(clans[k], t)
  {
    forall k | 0 <= k < |clans| && clans[k].number == t.clan && t.clan != 0 ensures RealClan(clans, t.clan) == k {
      RealClanAt(clans, t.clan, k);
    }
  }

  lemma RemovedTitle(clans: seq<ClanVal>, k: nat, t: Title)
    requires k < |clans| && NumbersDistinct(clans) && NumbersDistinct(RemoveAt(clans, k))
    ensures TitleHolds(RemoveAt(clans, k), t) <==> TitleHolds(clans, t) && t.clan != clans[k].number
  {
    var less := RemoveAt(clans, k);
    TitleSomewhere(clans, t);
    TitleSomewhere(less, t);
    assert forall j | 0 <= j < |less| :: less[j] == clans[if j < k then j else j + 1];
    if TitleHolds(clans, t) && t.clan != clans[k].number {
      var q :| 0 <= q < |clans| && clans[q].number == t.clan && Names(clans[q], t);
      assert less[if q < k then q else q - 1] == clans[q];
    }
  }

  lemma RemovedNames(clans: seq<ClanVal>, k: nat)
    requires k < |clans| && AllNamesOk(clans)
    ensures AllNamesOk(RemoveAt(clans, k))
  {
    var less := RemoveAt(clans, k);
    forall j | 0 <= j < |less| ensures NamesOk(less[j]) {
      assert less[j] == clans[if j < k then j else j + 1];
    }
  }

  lemma DeleteTitled(w: World, ch: int, number: int)
    requires Inv(w) && Titled(w)
    ensures Titled(Delete(w, ch, number))
  {
    var k := Edited(w, ch, number);
    if k < |w.clans| {
      DeleteInv(w, k);
      RemovedNames(w.clans, k);
      forall t: Title ensures t in DeleteTitles(w.titles, number) <==> TitleHolds(RemoveAt(w.clans, k), t) {
        RemovedTitle(w.clans, k, t);
      }
    }
  }

  /** A clan without names holds no title, wherever it is put. */
  lemma NamelessClan(clans: seq<ClanVal>, p: nat, c: ClanVal, t: Title)
    requires p <= |clans| && c.names == NO_NAMES
    requires NumbersDistinct(clans) && NumbersDistinct(clans[..p] + [c] + clans[p..])
    ensures TitleHolds(clans, t) <==> TitleHolds(clans[..p] + [c] + clans[p..], t)
  {
    var more := clans[..p] + [c] + clans[p..];
    assert RemoveAt(more, p) == clans;
    RemovedTitle(more, p, t);
    if t.clan == c.number {
      Nameless(more, p, t);
    }
  }

  lemma Nameless(clans: seq<ClanVal>, p: nat, t: Title)
    requires p < |clans| && clans[p].names == NO_NAMES && t.clan == clans[p].number && NumbersDistinct(clans)
    ensures !TitleHolds(clans, t)
  {
    TitleSomewhere(clans, t);
  }

  lemma MoreNames(clans: seq<ClanVal>, p: nat, c: ClanVal)
    requires p <= |clans| && AllNamesOk(clans) && NamesOk(c)
    ensures AllNamesOk(clans[..p] + [c] + clans[p..])
  {
  }

  lemma CreateTitled(w: World, number: int)
    requires Inv(w) && Titled(w)
    ensures Titled(Create(w, number))
  {
    CreateInv(w, number);
    if number > 0 && !Exists(w.clans, number) && number <= 255 {
      var p, c := NewPlace(w.clans, number), NewClan(number);
      MoreNames(w.clans, p, c);
      forall t: Title ensures TitleHolds(w.clans, t) <==> TitleHolds(w.clans[..p] + [c] + w.clans[p..], t) {
        NamelessClan(w.clans, p, c, t);
      }
    }
  }

  // ---------- Runs ----------

  lemma ApplyTitled(w: World, c: Command)
    requires Inv(w) && Titled(w)
    ensures Titled(Apply(w, c))
  {
    match c
    case CmdEnroll(ch, vict, named) =>
      EnrollNames(w, ch, vict, named);
      SameTitled(w, Apply(w, c));
    case CmdJoin(ch, named, password) =>
      if Joins(w, ch, named, password) {
        InductNames(w, RealClan(w.clans, named), ch);
        SameTitled(w, Apply(w, c));
      }
    case CmdDismiss(ch, vict) =>
      DismissNames(w, ch, vict);
      SameTitled(w, Apply(w, c));
    case CmdResign(ch, confirmed) =>
      ResignNames(w, ch, confirmed);
      SameTitled(w, Apply(w, c));
    case CmdPromote(ch, vict) =>
      PromoteNames(w, ch, vict);
      SameTitled(w, Apply(w, c));
    case CmdDemote(ch, vict) =>
      DemoteNames(w, ch, vict);
      SameTitled(w, Apply(w, c));
    case CmdClanMail(ch) =>
      MailNames(w, ch);
      SameTitled(w, Apply(w, c));
    case CmdSetTop(ch, number, top) => SetTopTitled(w, ch, number, top);
    case CmdSetTitle(ch, number, rank, name) => SetTitleTitled(w, ch, number, rank, name);
    case CmdRemove(ch, number, id) =>
      SameTitled(w, Apply(w, c));
    case CmdDelete(ch, number) => DeleteTitled(w, ch, number);
    case CmdCreate(number) => CreateTitled(w, number);
  }

  /** Over any admissible run the rows of clan_ranks are exactly the names of ranks in memory, none of a
      rank above the top rank. */
  lemma {:induction false} RunTitled(w: World, cs: seq<Command>)
    requires Inv(w) && Titled(w) && AdmissibleRun(w, cs)
    ensures Titled(Run(w, cs))
    decreases |cs|
  {
    if cs != [] {
      ApplyTitled(w, cs[0]);
      ApplyInv(w, cs[0]);
      RunTitled(Apply(w, cs[0]), cs[1..]);
    }
  }
}
