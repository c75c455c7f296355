/** Who may do what to whom in a clan, and what comes of it. Members are read off the rows of the table, which
    are the members in memory as long as the invariant holds. */
module ClanStanding {
  import opened Numbers
  import opened ClanList
  import opened ClanRules
  import opened ClanRuns
  import opened ClanTitles

  // ---------- Members and their rows ----------

  lemma RowAt(w: World, k: nat, id: int)
    requires Inv(w) && k < |w.clans| && Listed(w.clans[k].members, id)
    ensures var m := w.clans[k].members[Find(w.clans[k].members, id)];
      Row(w.clans[k].number, id, m.rank, m.noMail) in w.rows
  {
    TableOf(w, k);
    var m := w.clans[k].members[Find(w.clans[k].members, id)];
    assert RowMember(Row(w.clans[k].number, id, m.rank, m.noMail)) == m;
  }

  lemma RowListed(w: World, r: Row)
    requires Inv(w) && r in w.rows
    ensures var k := RealClan(w.clans, r.clan);
      && k < |w.clans| && Listed(w.clans[k].members, r.player)
      && w.clans[k].members[Find(w.clans[k].members, r.player)] == RowMember(r)
    ensures Known(w, r.player) && w.players[r.player].clan == r.clan && !w.players[r.player].npc
  {
    var k := RealClan(w.clans, r.clan);
    TableOf(w, k);
    ListedIn(w.clans[k].members, r.player);
    assert ClanOk(w.clans[k]);
    MemberIs(w.clans[k].members, Find(w.clans[k].members, r.player), RowMember(r));
    RowBelongs(w, r);
  }

  /** A player has one row at most. */
  lemma OneRow(w: World, r: Row, s: Row)
    requires Inv(w) && r in w.rows && s in w.rows && r.player == s.player
    ensures r == s
  {
    RowListed(w, r);
    RowListed(w, s);
  }

  ghost predicate Owns(w: World, id: int, number: int) {
    exists k :: 0 <= k < |w.clans| && w.clans[k].number == number && w.clans[k].owner == id
  }

  lemma OwnsAt(w: World, k: nat, id: int)
    requires Inv(w) && k < |w.clans|
    ensures Owns(w, id, w.clans[k].number) <==> w.clans[k].owner == id
  {
  }

  /** The two are members of one clan. */
  ghost predicate Fellows(w: World, a: Row, b: Row) {
    a in w.rows && b in w.rows && a.clan == b.clan
  }

  /** The rows of two players who are listed in one clan. */
  lemma FellowRows(w: World, k: nat, ch: int, vict: int) returns (a: Row, b: Row)
    requires Inv(w) && k < |w.clans| && Listed(w.clans[k].members, ch) && Listed(w.clans[k].members, vict)
    ensures Fellows(w, a, b) && a.clan == w.clans[k].number && a.player == ch && b.player == vict
    ensures a.rank == w.clans[k].members[Find(w.clans[k].members, ch)].rank
    ensures b.rank == w.clans[k].members[Find(w.clans[k].members, vict)].rank
  {
    RowAt(w, k, ch);
    RowAt(w, k, vict);
    var m, v := w.clans[k].members[Find(w.clans[k].members, ch)], w.clans[k].members[Find(w.clans[k].members, vict)];
    a, b := Row(w.clans[k].number, ch, m.rank, m.noMail), Row(w.clans[k].number, vict, v.rank, v.noMail);
  }

  ghost predicate HasRow(w: World, number: int, id: int) {
    exists r :: r in w.rows && r.clan == number && r.player == id
  }

  // ---------- Dismissing ----------

  /** An administrator may dismiss anybody; of two members of one clan, its owner any other, and its leader one
      of lower rank who is no leader. */
  ghost predicate Dismisses(w: World, ch: int, vict: int)
    requires Known(w, ch) && Known(w, vict)
  {
    || w.players[ch].admin
    || exists a, b | Fellows(w, a, b) && a.player == ch && b.player == vict ::
         || Owns(w, ch, a.clan)
         || (w.players[ch].leader && a.rank > b.rank && !w.players[vict].leader)
  }

  ghost predicate MayDismiss(w: World, ch: int, vict: int) {
    && Known(w, ch) && Known(w, vict) && ch != vict && !w.players[ch].charmed
    && !w.players[vict].npc && Exists(w.clans, w.players[vict].clan)
    && Dismisses(w, ch, vict)
  }

  lemma CanDismissWho(w: World, ch: int, vict: int, k: nat)
    requires Inv(w) && k < |w.clans| && Known(w, ch) && Known(w, vict) && RealClan(w.clans, w.players[vict].clan) == k
    requires vict != ch && !w.players[ch].charmed && !w.players[ch].admin
    ensures CanDismiss(w, ch, vict, k) <==> Dismisses(w, ch, vict)
    ensures Dismisses(w, ch, vict) ==> Exists(w.clans, w.players[ch].clan)
  {
    OwnsAt(w, k, ch);
    if CanDismiss(w, ch, vict, k) {
      var a, b := FellowRows(w, k, ch, vict);
    }
    if Dismisses(w, ch, vict) {
      var a, b :| Fellows(w, a, b) && a.player == ch && b.player == vict &&
        (Owns(w, ch, a.clan) || (w.players[ch].leader && a.rank > b.rank && !w.players[vict].leader));
      RowListed(w, a);
      RowListed(w, b);
    }
  }

  /** A player is dismissed exactly by those who may, and then loses the clan, the leadership and every row. */
  lemma DismissWho(w: World, ch: int, vict: int)
    requires Inv(w)
    ensures var w' := Dismiss(w, ch, vict);
      && (w' != w <==> MayDismiss(w, ch, vict))
      && (w' != w ==>
            && (forall r: Row :: r in w'.rows <==> r in w.rows && r.player != vict)
            && w'.players == w.players[vict := w.players[vict].(clan := 0, leader := false)])
  {
    if Known(w, ch) && Known(w, vict) {
      var k := RealClan(w.clans, w.players[vict].clan);
      if k < |w.clans| && vict != ch && !w.players[ch].charmed && !w.players[ch].admin {
        CanDismissWho(w, ch, vict, k);
      }
      assert k < |w.clans| ==> Leave(w, k, vict).players[vict].clan != w.players[vict].clan;
    }
  }

  /** A player resigns by confirming it, and loses the clan, the leadership, every row and the clan owned. */
  lemma ResignWho(w: World, ch: int, confirmed: bool)
    requires Inv(w)
    ensures var w' := Resign(w, ch, confirmed);
      && (w' != w <==> Known(w, ch) && !w.players[ch].npc && !w.players[ch].charmed && confirmed
                       && Exists(w.clans, w.players[ch].clan))
      && (w' != w ==>
            && (forall r: Row :: r in w'.rows <==> r in w.rows && r.player != ch)
            && w'.players == w.players[ch := w.players[ch].(clan := 0, leader := false)]
            && (ch != 0 ==> !Owns(w', ch, w.players[ch].clan)))
  {
    if Known(w, ch) && !w.players[ch].npc && !w.players[ch].charmed && confirmed {
      var k := RealClan(w.clans, w.players[ch].clan);
      if k < |w.clans| {
        var w' := Resign(w, ch, confirmed);
        assert w'.players[ch].clan == 0 != w.players[ch].clan;
        ResignInv(w, ch, confirmed);
        assert w'.clans[k].number == w.players[ch].clan;
        OwnsAt(w', k, ch);
      }
    }
  }

  // ---------- Becoming a member ----------

  /** What is asked of a new member whom no administrator takes in. */
  predicate Eligible(p: Player) {
    p.level >= LVL_CAN_CLAN || p.remort != 0
  }

  /** The clan has no more members than the limit. */
  ghost predicate NotFull(w: World, number: int) {
    exists k :: 0 <= k < |w.clans| && w.clans[k].number == number && |w.clans[k].members| <= MAX_CLAN_MEMBERS
  }

  lemma NotFullAt(w: World, k: nat)
    requires Inv(w) && k < |w.clans|
    ensures NotFull(w, w.clans[k].number) <==> |w.clans[k].members| <= MAX_CLAN_MEMBERS
  {
  }

  function Recruiting(w: World, ch: int, named: int): int
    requires Known(w, ch)
  {
    if w.players[ch].admin then named else w.players[ch].clan
  }

  /** A player character without a clan is enrolled by an administrator into any clan; by its owner or leader,
      if not frozen, of level 10 or remort, and the clan is not full. */
  ghost predicate MayEnroll(w: World, ch: int, vict: int, named: int) {
    && Known(w, ch) && Known(w, vict) && !w.players[ch].charmed && !w.players[vict].npc
    && !Exists(w.clans, w.players[vict].clan) && Exists(w.clans, Recruiting(w, ch, named))
    && (w.players[ch].admin
        || (&& !w.players[vict].frozen && Eligible(w.players[vict])
            && NotFull(w, w.players[ch].clan)
            && (Owns(w, ch, w.players[ch].clan) || w.players[ch].leader)))
  }

  /** The new member's row comes in, and the player has the clan and no leadership. */
  ghost predicate Inducted(w: World, w': World, number: int, id: int)
    requires Known(w, id)
  {
    && (forall r: Row :: r in w'.rows <==> r in w.rows || r == Row(number, id, 0, false))
    && w'.players == w.players[id := w.players[id].(clan := number, leader := false)]
  }

  lemma CanEnrollWho(w: World, ch: int, vict: int, named: int, k: nat)
    requires Inv(w) && Known(w, ch) && Known(w, vict) && k < |w.clans|
    requires RealClan(w.clans, Recruiting(w, ch, named)) == k && !Exists(w.clans, w.players[vict].clan)
    ensures CanEnroll(w, ch, vict, k) == (w, MayEnroll(w, ch, vict, named))
  {
    NotListed(w, vict);
    assert Without(w.clans[k].members, vict) == w.clans[k].members;
    assert w.clans[k].(members := w.clans[k].members) == w.clans[k] && w.clans[k := w.clans[k]] == w.clans;
    OwnsAt(w, k, ch);
    NotFullAt(w, k);
  }

  lemma EnrollWho(w: World, ch: int, vict: int, named: int)
    requires Inv(w)
    ensures var w' := Enroll(w, ch, vict, named);
      if MayEnroll(w, ch, vict, named) then Inducted(w, w', Recruiting(w, ch, named), vict) else w'.rows == w.rows
  {
    if Known(w, ch) && Known(w, vict) && Exists(w.clans, Recruiting(w, ch, named)) {
      var k := RealClan(w.clans, Recruiting(w, ch, named));
      if !Exists(w.clans, w.players[vict].clan) {
        CanEnrollWho(w, ch, vict, named, k);
      }
    }
  }

  /** A player character joins another clan as an administrator, or without a clan and by the password of one
      that has one and is not full. */
  ghost predicate MayJoin(w: World, ch: int, named: int, password: string) {
    && Known(w, ch) && !w.players[ch].charmed && !w.players[ch].npc
    && Exists(w.clans, named) && w.players[ch].clan != named
    && (w.players[ch].admin
        || (&& w.players[ch].clan == 0 && Eligible(w.players[ch]) && NotFull(w, named)
            && password != "" && w.clans[RealClan(w.clans, named)].password == password))
  }

  lemma JoinWho(w: World, ch: int, named: int, password: string)
    requires Inv(w)
    ensures var w' := Join(w, ch, named, password);
      if MayJoin(w, ch, named, password) then Inducted(w, w', named, ch) else w' == w
  {
    if Exists(w.clans, named) {
      NotFullAt(w, RealClan(w.clans, named));
    }
  }

  // ---------- Ranks ----------

  /** One row is exchanged for another. */
  ghost predicate RowBecomes(w: World, w': World, was: Row, now: Row) {
    forall r: Row :: r in w'.rows <==> r == now || (r in w.rows && r != was)
  }

  ghost function TopOf(w: World, number: int): int {
    if Exists(w.clans, number) then w.clans[RealClan(w.clans, number)].topRank else 0
  }

  /** Of two members of one clan, an administrator and its owner promote any; others not themselves, and as a
      leader anybody, else those of lower rank. A leader of the top rank cannot be promoted. */
  ghost predicate Promotes(w: World, a: Row, b: Row)
    requires Known(w, a.player) && Known(w, b.player)
  {
    var actor, v := w.players[a.player], w.players[b.player];
    && Fellows(w, a, b) && !actor.charmed && (b.rank < TopOf(w, b.clan) || !v.leader)
    && (actor.admin || Owns(w, a.player, a.clan) || (a.player != b.player && (actor.leader || a.rank > b.rank)))
  }

  lemma PromoteAt(w: World, ch: int, vict: int, k: nat, a: Row, b: Row)
    requires Inv(w) && Fellows(w, a, b) && a.player == ch && b.player == vict && k == RealClan(w.clans, a.clan)
    ensures k < |w.clans| && Known(w, ch) && Known(w, vict) && RealClan(w.clans, w.players[ch].clan) == k
    ensures CanPromote(w, ch, vict, k) <==> Promotes(w, a, b)
    ensures Listed(w.clans[k].members, vict)
    ensures w.clans[k].members[Find(w.clans[k].members, vict)] == RowMember(b) && w.clans[k].number == b.clan
  {
    RowListed(w, a);
    RowListed(w, b);
    OwnsAt(w, k, ch);
  }

  /** The member of row b gets another rank, and nothing else changes in the table or about the players. */
  ghost predicate RankMoves(w: World, w': World, b: Row, rank: int) {
    w' != w && RowBecomes(w, w', b, b.(rank := rank)) && w'.players == w.players
  }

  lemma RankBecomes(w: World, k: nat, i: nat, b: Row, rank: int)
    requires Inv(w) && k < |w.clans| && i < |w.clans[k].members| && b in w.rows
    requires w.clans[k].members[i] == RowMember(b) && w.clans[k].number == b.clan && rank != b.rank
    ensures RankMoves(w, ChangeRank(w, k, i, rank), b, rank)
  {
    RankRows(w, k, i, rank);
    forall r | r in w.rows && r.player == b.player ensures r == b {
      OneRow(w, r, b);
    }
    assert b.(rank := rank) in ChangeRank(w, k, i, rank).rows;
    assert b.(rank := rank) !in w.rows;
  }

  /** Whoever may be promoted rises by one rank or, at the top rank, becomes a leader. */
  lemma PromoteWho(w: World, a: Row, b: Row)
    requires Inv(w) && Fellows(w, a, b)
    ensures Known(w, a.player) && Known(w, b.player)
    ensures var w' := Promote(w, a.player, b.player);
      if !Promotes(w, a, b) then w' == w
      else if b.rank < TopOf(w, b.clan) then RankMoves(w, w', b, b.rank + 1)
      else w'.rows == w.rows && w'.players == w.players[b.player := w.players[b.player].(leader := true)]
  {
    var k := RealClan(w.clans, a.clan);
    PromoteAt(w, a.player, b.player, k, a, b);
    var i := Find(w.clans[k].members, b.player);
    RaiseIs(w, k, i, b);
    if b.rank < TopOf(w, b.clan) {
      RankBecomes(w, k, i, b, b.rank + 1);
    }
  }

  lemma RaiseIs(w: World, k: nat, i: nat, b: Row)
    requires k < |w.clans| && i < |w.clans[k].members| && w.clans[k].members[i] == RowMember(b) && Known(w, b.player)
    ensures Raise(w, k, i, b.player) ==
      if b.rank < w.clans[k].topRank then ChangeRank(w, k, i, b.rank + 1)
      else WithPlayer(w, b.player, w.players[b.player].(leader := true))
  {
  }

  /** Nobody is promoted by or as a member of another clan. */
  lemma PromoteOnlyFellows(w: World, ch: int, vict: int)
    requires Inv(w) && Promote(w, ch, vict) != w
    ensures exists a, b :: Fellows(w, a, b) && a.player == ch && b.player == vict
  {
    var a, b := FellowRows(w, RealClan(w.clans, w.players[ch].clan), ch, vict);
  }

  /** A member above rank 0 is demoted by itself or, if no leader, by a leader or administrator of higher rank
      in the same clan. */
  ghost predicate Demotes(w: World, a: Row, b: Row)
    requires Known(w, a.player) && Known(w, b.player)
  {
    && Fellows(w, a, b) && !w.players[a.player].charmed && b.rank > 0
    && (a.player == b.player
        || (&& (w.players[a.player].leader || w.players[a.player].admin)
            && a.rank > b.rank && !w.players[b.player].leader))
  }

  lemma DemoteWho(w: World, a: Row, b: Row)
    requires Inv(w) && Fellows(w, a, b)
    ensures Known(w, a.player) && Known(w, b.player)
    ensures Demotes(w, a, b) ==> RankMoves(w, Demote(w, a.player, b.player), b, b.rank - 1)
    ensures !Demotes(w, a, b) ==> Demote(w, a.player, b.player) == w
  {
    var k, i, w' := DemoteAt(w, a, b);
    if w' != w {
      RankFalls(w, k, i, b, w');
    }
  }

  lemma RankFalls(w: World, k: nat, i: nat, b: Row, w': World)
    requires Inv(w) && k < |w.clans| && i < |w.clans[k].members| && b in w.rows
    requires w.clans[k].members[i] == RowMember(b) && w.clans[k].number == b.clan
    requires w' == ChangeRank(w, k, i, b.rank - 1)
    ensures RankMoves(w, w', b, b.rank - 1)
  {
    RankBecomes(w, k, i, b, b.rank - 1);
  }

  lemma DemoteAt(w: World, a: Row, b: Row) returns (k: nat, i: nat, w': World)
    requires Inv(w) && Fellows(w, a, b)
    ensures Known(w, a.player) && Known(w, b.player)
    ensures k < |w.clans| && i < |w.clans[k].members| && w.clans[k].members[i] == RowMember(b)
    ensures w.clans[k].number == b.clan
    ensures w' == Demote(w, a.player, b.player)
    ensures w' == if Demotes(w, a, b) then ChangeRank(w, k, i, b.rank - 1) else w
    ensures Demotes(w, a, b) ==> w' != w
  {
    w' := Demote(w, a.player, b.player);
    k := RealClan(w.clans, a.clan);
    RowListed(w, a);
    RowListed(w, b);
    i := Find(w.clans[k].members, b.player);
    RankBounds(w, k, i);
    if a.player == b.player {
      OneRow(w, a, b);
    }
    if Demotes(w, a, b) {
      RankFalls(w, k, i, b, w');
    }
  }

  lemma DemoteOnlyFellows(w: World, ch: int, vict: int)
    requires Inv(w) && Demote(w, ch, vict) != w
    ensures exists a, b :: Fellows(w, a, b) && a.player == ch && b.player == vict
  {
    var a, b := FellowRows(w, RealClan(w.clans, w.players[ch].clan), ch, vict);
  }

  /** A member switches the clan's mail off or, if it is off, on, and doing it twice changes nothing. */
  lemma ClanMailWho(w: World, ch: int)
    requires Inv(w)
    ensures forall a | a in w.rows && a.player == ch :: RowBecomes(w, ClanMail(w, ch), a, a.(noMail := !a.noMail))
    ensures (forall a | a in w.rows :: a.player != ch) ==> ClanMail(w, ch) == w
    ensures ClanMail(w, ch).players == w.players
  {
    forall a | a in w.rows && a.player == ch ensures RowBecomes(w, ClanMail(w, ch), a, a.(noMail := !a.noMail)) {
      RowListed(w, a);
      var k := RealClan(w.clans, a.clan);
      NoMailRows(w, k, Find(w.clans[k].members, ch), !a.noMail);
      forall r | r in w.rows && r.player == ch ensures r == a {
        OneRow(w, r, a);
      }
    }
    if ClanMail(w, ch) != w {
      RowAt(w, RealClan(w.clans, w.players[ch].clan), ch);
    }
  }

  // ---------- Editing ----------

  /** Any clan may be edited, but one only by a high god. */
  predicate MayEdit(w: World, ch: int, number: int) {
    Known(w, ch) && Exists(w.clans, number) && (number == 6 ==> w.players[ch].level >= 67)
  }

  /** A new top rank between 0 and 10 takes higher ranks down to it, and their titles with it. */
  lemma SetTopWho(w: World, ch: int, number: int, top: int)
    requires Inv(w)
    ensures var w' := SetTop(w, ch, number, top);
      if MayEdit(w, ch, number) && 0 <= top <= 10 then
        && TopOf(w', number) == top && w'.players == w.players
        && RowsDown(w, w', number, top)
        && (forall t: Title :: t in w'.titles <==> t in w.titles && (t.clan == number ==> t.rank <= top))
      else w' == w
  {
    if MayEdit(w, ch, number) && 0 <= top <= 10 {
      var k := RealClan(w.clans, number);
      RealClanSame(w.clans, k, SetTop(w, ch, number, top).clans[k], number);
      RowsClamped(w, SetTop(w, ch, number, top), number, top);
    }
  }

  /** The ranks of clan number above top are taken down to it. */
  ghost predicate RowsDown(w: World, w': World, number: int, top: int) {
    && (forall r | r in w.rows :: (if r.clan == number then r.(rank := Min(r.rank, top)) else r) in w'.rows)
    && (forall r | r in w'.rows :: HasRow(w, r.clan, r.player) && (r.clan == number ==> r.rank <= top))
  }

  lemma RowsClamped(w: World, w': World, number: int, top: int)
    requires w'.rows == ClampRows(w.rows, number, top)
    ensures RowsDown(w, w', number, top)
  {
    forall r | r in w.rows ensures (if r.clan == number then r.(rank := Min(r.rank, top)) else r) in w'.rows {
      assert ClampRow(r, number, top) in w'.rows;
    }
    forall r | r in w'.rows ensures HasRow(w, r.clan, r.player) && (r.clan == number ==> r.rank <= top) {
      var r0 :| r0 in w.rows && ClampRow(r0, number, top) == r;
    }
  }

  /** An edit takes out the member named, and only that one. */
  lemma RemoveWho(w: World, ch: int, number: int, id: int)
    requires Inv(w)
    ensures var w' := RemoveListed(w, ch, number, id);
      && w'.players == w.players
      && if MayEdit(w, ch, number) then
           forall r: Row :: r in w'.rows <==> r in w.rows && !(r.clan == number && r.player == id)
         else w' == w
  {
    var w' := RemoveListed(w, ch, number, id);
    if MayEdit(w, ch, number) && w'.rows == w.rows {
      forall r | r in w.rows && r.clan == number && r.player == id ensures false {
        RowListed(w, r);
      }
    }
  }

  /** A disbanded clan goes with its members and titles, and the clan field of its members in the game. */
  lemma DeleteWho(w: World, ch: int, number: int)
    requires Inv(w)
    ensures var w' := Delete(w, ch, number);
      if MayEdit(w, ch, number) then
        && !Exists(w'.clans, number)
        && (forall r: Row :: r in w'.rows <==> r in w.rows && r.clan != number)
        && (forall t: Title :: t in w'.titles <==> t in w.titles && t.clan != number)
        && w'.players.Keys == w.players.Keys
        && forall id | id in w.players :: w'.players[id] ==
             w.players[id].(clan :=
               if w.players[id].clan == number && w.players[id].online && !w.players[id].npc then 0
               else w.players[id].clan)
      else w' == w
  {
    if MayEdit(w, ch, number) {
      var k := RealClan(w.clans, number);
      var less := RemoveAt(w.clans, k);
      assert forall j | 0 <= j < |less| :: less[j] == w.clans[if j < k then j else j + 1];
    }
  }

  predicate Ascending(clans: seq<ClanVal>) {
    forall i, j | 0 <= i < j < |clans| :: clans[i].number < clans[j].number
  }

  lemma NewPlaceBetween(clans: seq<ClanVal>, number: int)
    requires clans != [] && Ascending(clans) && clans[0].number < number
    requires forall j | 0 <= j < |clans| :: clans[j].number != number
    ensures var p := NewPlaceAfter(clans, number) + 1;
      clans[p - 1].number < number && (p < |clans| ==> number < clans[p].number)
    decreases |clans|
  {
    if |clans| > 1 && clans[1].number < number {
      NewPlaceBetween(clans[1..], number);
    }
  }

  /** A new clan has a number of 1..255 that no other has, comes in without members, and keeps the clans in the
      order of their numbers if they are. */
  lemma CreateWho(w: World, number: int)
    requires Inv(w)
    ensures var w' := Create(w, number);
      if 1 <= number <= 255 && !Exists(w.clans, number) then
        && Exists(w'.clans, number) && w'.rows == w.rows && w'.players == w.players && w'.titles == w.titles
        && (Ascending(w.clans) ==> Ascending(w'.clans))
      else w' == w
  {
    if 1 <= number <= 255 && !Exists(w.clans, number) {
      CreateInv(w, number);
      PlacedIn(w.clans, NewPlace(w.clans, number), number);
      if Ascending(w.clans) {
        PlacedInOrder(w.clans, number);
      }
    }
  }

  lemma PlacedIn(clans: seq<ClanVal>, p: nat, number: int)
    requires p <= |clans| && number > 0 && !Exists(clans, number)
    ensures Exists(clans[..p] + [NewClan(number)] + clans[p..], number)
  {
    RealClanAt(clans[..p] + [NewClan(number)] + clans[p..], number, p);
  }

  lemma PlacedInOrder(clans: seq<ClanVal>, number: int)
    requires Ascending(clans) && number > 0 && !Exists(clans, number)
    ensures var p := NewPlace(clans, number); Ascending(clans[..p] + [NewClan(number)] + clans[p..])
  {
    if clans != [] && clans[0].number < number {
      NewPlaceBetween(clans, number);
    }
    PutInOrder(clans, NewPlace(clans, number), number);
  }

  lemma PutInOrder(clans: seq<ClanVal>, p: nat, number: int)
    requires Ascending(clans) && p <= |clans|
    requires (p > 0 ==> clans[p - 1].number < number) && (p < |clans| ==> number < clans[p].number)
    ensures Ascending(clans[..p] + [NewClan(number)] + clans[p..])
  {
    var more := clans[..p] + [NewClan(number)] + clans[p..];
    forall i, j | 0 <= i < j < |more| ensures more[i].number < more[j].number {
      assert i < p ==> more[i] == clans[i];
      assert i > p ==> more[i] == clans[i - 1];
      assert j < p ==> more[j] == clans[j];
      assert j > p ==> more[j] == clans[j - 1];
    }
  }

  /** A rank up to the top rank gets a name of 1..47 characters, and only that one. */
  lemma SetTitleWho(w: World, ch: int, number: int, rank: int, name: string)
    requires Inv(w) && Titled(w)
    ensures var w' := SetTitle(w, ch, number, rank, name);
      if MayEdit(w, ch, number) && 0 <= rank <= TopOf(w, number) && 0 < |name| < 48 then
        && w'.rows == w.rows && w'.players == w.players
        && forall t: Title ::
             t in w'.titles <==> (if t.clan == number && t.rank == rank then t.name == name else t in w.titles)
      else w' == w
  {
    if MayEdit(w, ch, number) && 0 <= rank <= TopOf(w, number) && 0 < |name| < 48 {
      var k := RealClan(w.clans, number);
      var w' := SetTitle(w, ch, number, rank, name);
      assert ClanOk(w.clans[k]) && NamesOk(w.clans[k]);
      SetTitleTitled(w, ch, number, rank, name);
      forall t: Title
        ensures TitleHolds(w'.clans, t) <==>
          (if t.clan == number && t.rank == rank then t.name == name else TitleHolds(w.clans, t))
      {
        RealClanSame(w.clans, k, w'.clans[k], t.clan);
      }
    }
  }

  // ---------- Who is a member ----------

  /** The command makes the player a member of the clan. */
  ghost predicate Enters(w: World, c: Command, number: int, id: int) {
    match c
    case CmdEnroll(ch, vict, named) => vict == id && MayEnroll(w, ch, vict, named) && Recruiting(w, ch, named) == number
    case CmdJoin(ch, named, password) => ch == id && named == number && MayJoin(w, ch, named, password)
    case _ => false
  }

  /** The command ends the membership: the member is dismissed by one who may, resigns or is edited out, or the
      clan is disbanded. */
  ghost predicate Leaves(w: World, c: Command, number: int, id: int) {
    match c
    case CmdDismiss(ch, vict) => vict == id && MayDismiss(w, ch, vict)
    case CmdResign(ch, confirmed) => ch == id && confirmed && Known(w, ch) && !w.players[ch].charmed
    case CmdRemove(ch, edited, listed) => edited == number && listed == id && MayEdit(w, ch, edited)
    case CmdDelete(ch, edited) => edited == number && MayEdit(w, ch, edited)
    case _ => false
  }

  /** The same rows but for ranks and mail. */
  ghost predicate SameRows(w: World, w': World) {
    forall number, id :: HasRow(w, number, id) <==> HasRow(w', number, id)
  }

  lemma BecomesSame(w: World, w': World, was: Row, now: Row)
    requires RowBecomes(w, w', was, now) && was in w.rows && was.clan == now.clan && was.player == now.player
    ensures SameRows(w, w')
  {
    forall number, id ensures HasRow(w, number, id) <==> HasRow(w', number, id) {
      if HasRow(w, number, id) {
        var r :| r in w.rows && r.clan == number && r.player == id;
        assert now in w'.rows && (r == was || r in w'.rows);
      }
    }
  }

  lemma PromoteSame(w: World, ch: int, vict: int)
    requires Inv(w)
    ensures SameRows(w, Promote(w, ch, vict))
  {
    if Promote(w, ch, vict) != w {
      PromoteOnlyFellows(w, ch, vict);
      var a, b :| Fellows(w, a, b) && a.player == ch && b.player == vict;
      PromotedSame(w, a, b);
    }
  }

  lemma PromotedSame(w: World, a: Row, b: Row)
    requires Inv(w) && Fellows(w, a, b)
    ensures SameRows(w, Promote(w, a.player, b.player))
  {
    PromoteWho(w, a, b);
    var w' := Promote(w, a.player, b.player);
    if w'.rows != w.rows {
      BecomesSame(w, w', b, b.(rank := b.rank + 1));
    }
  }

  lemma DemoteSame(w: World, ch: int, vict: int)
    requires Inv(w)
    ensures SameRows(w, Demote(w, ch, vict))
  {
    if Demote(w, ch, vict) != w {
      DemoteOnlyFellows(w, ch, vict);
      var a, b :| Fellows(w, a, b) && a.player == ch && b.player == vict;
      DemoteWho(w, a, b);
      BecomesSame(w, Demote(w, ch, vict), b, b.(rank := b.rank - 1));
    }
  }

  lemma ClanMailSame(w: World, ch: int)
    requires Inv(w)
    ensures SameRows(w, ClanMail(w, ch))
  {
    ClanMailWho(w, ch);
    if a :| a in w.rows && a.player == ch {
      BecomesSame(w, ClanMail(w, ch), a, a.(noMail := !a.noMail));
    }
  }

  lemma SetTopSame(w: World, ch: int, number: int, top: int)
    requires Inv(w)
    ensures SameRows(w, SetTop(w, ch, number, top))
  {
    SetTopWho(w, ch, number, top);
    if MayEdit(w, ch, number) && 0 <= top <= 10 {
      DownSame(w, SetTop(w, ch, number, top), number, top);
    }
  }

  lemma DownSame(w: World, w': World, number: int, top: int)
    requires RowsDown(w, w', number, top)
    ensures SameRows(w, w')
  {
    forall edited, id ensures HasRow(w, edited, id) <==> HasRow(w', edited, id) {
      if HasRow(w, edited, id) {
        var r :| r in w.rows && r.clan == edited && r.player == id;
        assert (if r.clan == number then r.(rank := Min(r.rank, top)) else r) in w'.rows;
      }
    }
  }

  lemma ResignLeaves(w: World, ch: int, confirmed: bool, number: int, id: int)
    requires Inv(w)
    ensures HasRow(Resign(w, ch, confirmed), number, id)
      <==> HasRow(w, number, id) && !Leaves(w, CmdResign(ch, confirmed), number, id)
  {
    ResignWho(w, ch, confirmed);
    forall r | r in w.rows ensures Known(w, r.player) && !w.players[r.player].npc
      && Exists(w.clans, w.players[r.player].clan)
    {
      RowListed(w, r);
    }
  }

  lemma InductEnters(w: World, w': World, joined: int, vict: int, number: int, id: int)
    requires Known(w, vict) && Inducted(w, w', joined, vict)
    ensures HasRow(w', number, id) <==> HasRow(w, number, id) || (number == joined && id == vict)
  {
    assert Row(joined, vict, 0, false) in w'.rows;
  }

  /** Who is a member after a command: whoever was and is not dismissed by one who may, does not resign and is
      not edited out, and whoever is enrolled or joins as the rules allow. */
  lemma MemberAfter(w: World, c: Command, number: int, id: int)
    requires Inv(w)
    ensures HasRow(Apply(w, c), number, id)
      <==> (HasRow(w, number, id) && !Leaves(w, c, number, id)) || Enters(w, c, number, id)
  {
    match c
    case CmdEnroll(ch, vict, named) =>
      EnrollWho(w, ch, vict, named);
      if MayEnroll(w, ch, vict, named) {
        InductEnters(w, Apply(w, c), Recruiting(w, ch, named), vict, number, id);
      }
    case CmdJoin(ch, named, password) =>
      JoinWho(w, ch, named, password);
      if MayJoin(w, ch, named, password) {
        InductEnters(w, Apply(w, c), named, ch, number, id);
      }
    case CmdDismiss(ch, vict) => DismissWho(w, ch, vict);
    case CmdResign(ch, confirmed) => ResignLeaves(w, ch, confirmed, number, id);
    case CmdPromote(ch, vict) => PromoteSame(w, ch, vict);
    case CmdDemote(ch, vict) => DemoteSame(w, ch, vict);
    case CmdClanMail(ch) => ClanMailSame(w, ch);
    case CmdSetTop(ch, edited, top) => SetTopSame(w, ch, edited, top);
    case CmdSetTitle(ch, edited, rank, name) => assert Apply(w, c).rows == w.rows;
    case CmdRemove(ch, edited, listed) => RemoveWho(w, ch, edited, listed);
    case CmdDelete(ch, edited) => DeleteWho(w, ch, edited);
    case CmdCreate(created) => CreateWho(w, created);
  }

  /** Nothing in the run ends the membership. */
  ghost predicate NeverLeaves(w: World, cs: seq<Command>, number: int, id: int)
    decreases |cs|
  {
    cs == [] || (!Leaves(w, cs[0], number, id) && NeverLeaves(Apply(w, cs[0]), cs[1..], number, id))
  }

  /** Over any run, as long as nobody who may dismisses a member, and the member neither resigns nor is edited
      out, the member stays. */
  lemma {:induction false} RunStays(w: World, cs: seq<Command>, number: int, id: int)
    requires Inv(w) && AdmissibleRun(w, cs) && HasRow(w, number, id) && NeverLeaves(w, cs, number, id)
    ensures HasRow(Run(w, cs), number, id)
    decreases |cs|
  {
    if cs != [] {
      MemberAfter(w, cs[0], number, id);
      ApplyInv(w, cs[0]);
      RunStays(Apply(w, cs[0]), cs[1..], number, id);
    }
  }

  /** Nothing in the run makes the player a member. */
  ghost predicate NeverEnters(w: World, cs: seq<Command>, number: int, id: int)
    decreases |cs|
  {
    cs == [] || (!Enters(w, cs[0], number, id) && NeverEnters(Apply(w, cs[0]), cs[1..], number, id))
  }

  /** And who is no member stays none as long as nobody who may enrolls the player and the player does not join
      by the rules. */
  lemma {:induction false} RunStaysOut(w: World, cs: seq<Command>, number: int, id: int)
    requires Inv(w) && AdmissibleRun(w, cs) && !HasRow(w, number, id) && NeverEnters(w, cs, number, id)
    ensures !HasRow(Run(w, cs), number, id)
    decreases |cs|
  {
    if cs != [] {
      MemberAfter(w, cs[0], number, id);
      ApplyInv(w, cs[0]);
      RunStaysOut(Apply(w, cs[0]), cs[1..], number, id);
    }
  }
}
