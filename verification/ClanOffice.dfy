/** The clan commands on the clans in memory: they relink, unlink and change nodes in place, and do to
    the world exactly what the rules say. */
module ClanOffice {
  import opened ClanList
  import opened ClanRules

  ghost function ValueOf(c: Clan): ClanVal
    reads c, c.nodes
  {
    ClanVal(c.number, c.password, c.topRank, c.owner, c.names, c.Members())
  }

  ghost predicate Apart(a: Clan, b: Clan)
    reads a, b
  {
    a != b && forall n | n in a.nodes :: n !in b.nodes
  }

  class Office {
    var clans: seq<Clan>
    var players: map<int, Player>
    var rows: set<Row>
    var titles: set<Title>

    ghost function Nodes(): set<Member>
      reads this, clans
    {
      set k, i | 0 <= k < |clans| && 0 <= i < |clans[k].nodes| :: clans[k].nodes[i]
    }

    ghost predicate Valid()
      reads this, clans, Nodes()
    {
      && (forall j, k | 0 <= j < k < |clans| :: Apart(clans[j], clans[k]))
      && (forall k | 0 <= k < |clans| :: clans[k].Valid())
    }

    ghost function ClanVals(): seq<ClanVal>
      reads this, clans, Nodes()
    {
      seq(|clans|, k requires 0 <= k < |clans| reads this, clans, Nodes() => ValueOf(clans[k]))
    }

    ghost function Now(): World
      reads this, clans, Nodes()
    {
      World(ClanVals(), players, rows, titles)
    }

    /** Nothing has changed outside clan k, and its nodes are ones it had or new ones. */
    twostate lemma OneChanged(k: nat)
      requires old(Valid()) && k < |clans| && clans == old(clans) && players == old(players)
      requires rows == old(rows) && titles == old(titles)
      requires clans[k].Valid()
      requires forall n | n in clans[k].nodes :: n in old(clans[k].nodes) || fresh(n)
      requires forall j | 0 <= j < |clans| && j != k :: unchanged(clans[j])
      requires forall n: Member | old(allocated(n)) && n !in old(clans[k].nodes) :: unchanged(n)
      ensures Valid() && Now() == WithClan(old(Now()), k, ValueOf(clans[k]))
    {
      forall j | 0 <= j < |clans| && j != k
        ensures clans[j].Valid() && ValueOf(clans[j]) == old(ValueOf(clans[j]))
      {
        forall i | 0 <= i < |clans[j].nodes| ensures unchanged(clans[j].nodes[i]) {
          var n := clans[j].nodes[i];
          if j < k {
            assert old(Apart(clans[j], clans[k]));
          } else {
            assert old(Apart(clans[k], clans[j]));
          }
          assert n !in old(clans[k].nodes);
        }
        assert old(clans[j].Valid());
      }
      forall i, j | 0 <= i < j < |clans| ensures Apart(clans[i], clans[j]) {
        assert old(Apart(clans[i], clans[j]));
      }
    }

    /** The position of the clan with the given number, or the number of clans. */
    method RealClanOf(number: int) returns (k: nat)
      requires Valid()
      ensures k == RealClan(Now().clans, number) && k <= |clans|
      ensures Valid() && Now() == old(Now()) && Nodes() == old(Nodes())
    {
      k := 0;
      if number == 0 {
        k := |clans|;
        return;
      }
      while k < |clans| && clans[k].number != number
        invariant k <= |clans|
        invariant forall j | 0 <= j < k :: clans[j].number != number
      {
        k := k + 1;
      }
      Position(ClanVals(), number, k);
    }

    method FindMember(k: nat, id: int) returns (member: Member?)
      requires Valid() && k < |clans|
      ensures Valid() && Now() == old(Now()) && Nodes() == old(Nodes())
      ensures member == null <==> !Listed(Now().clans[k].members, id)
      ensures member != null ==>
        var i := Find(Now().clans[k].members, id);
        member == clans[k].nodes[i] && member.Value() == Now().clans[k].members[i]
    {
      member := clans[k].RealClanMember(id);
    }

    method CountMembers(k: nat) returns (count: nat)
      requires Valid() && k < |clans|
      ensures Valid() && Now() == old(Now()) && Nodes() == old(Nodes())
      ensures count == |Now().clans[k].members|
    {
      count := clans[k].MemberCount();
    }

    /** Puts a new member in front of clan k. */
    method PutInFront(k: nat, m: MemberVal)
      requires Valid() && k < |clans|
      modifies clans[k]
      ensures Valid() && clans == old(clans)
      ensures forall n | n in clans[k].nodes :: n in old(clans[k].nodes) || fresh(n)
      ensures Now() == WithClan(old(Now()), k,
        old(ValueOf(clans[k])).(members := [m] + old(clans[k].Members())))
    {
      clans[k].Prepend(m);
      OneChanged(k);
    }

    method SortClan(k: nat)
      requires Valid() && k < |clans|
      modifies clans[k], clans[k].nodes
      ensures Valid() && clans == old(clans)
      ensures forall n | n in clans[k].nodes :: n in old(clans[k].nodes)
      ensures Now() == WithClan(old(Now()), k, old(ValueOf(clans[k])).(members := SortByRank(old(clans[k].Members()))))
    {
      clans[k].SortClanMembers();
      forall n | n in clans[k].nodes ensures n in old(clans[k].nodes) {
        assert n in multiset(clans[k].nodes);
      }
      OneChanged(k);
    }

    method AddSorted(k: nat, id: int)
      requires Valid() && k < |clans|
      modifies clans[k], clans[k].nodes
      ensures Valid() && clans == old(clans)
      ensures Now() == WithClan(old(Now()), k,
        old(ValueOf(clans[k])).(members := SortByRank([MemberVal(id, 0, false)] + old(clans[k].Members()))))
    {
      ghost var w := Now();
      PutInFront(k, MemberVal(id, 0, false));
      ghost var c := ValueOf(clans[k]);
      assert Now().clans[k] == c;
      assert forall i | 0 <= i < |clans[k].nodes| :: clans[k].nodes[i] in clans[k].nodes;
      SortClan(k);
      SetTwice(w, k, c, ValueOf(clans[k]));
    }

    method ChangeMember(k: nat, ghost i: nat, member: Member, rank: int, noMail: bool)
      requires Valid() && k < |clans| && i < |clans[k].nodes| && clans[k].nodes[i] == member
      modifies member`rank, member`noMail
      ensures Valid() && clans == old(clans) && clans[k].nodes == old(clans[k].nodes)
      ensures Now() == WithClan(old(Now()), k,
        old(ValueOf(clans[k])).(
          members := old(clans[k].Members())[i := old(member.Value()).(rank := rank, noMail := noMail)]))
    {
      ghost var ms := clans[k].Members();
      member.rank := rank;
      member.noMail := noMail;
      assert clans[k].Members() == ms[i := MemberVal(member.idnum, rank, noMail)];
      OneChanged(k);
    }

    method Unlink(k: nat, ghost i: nat, member: Member)
      requires Valid() && k < |clans| && i < |clans[k].nodes| && clans[k].nodes[i] == member
      modifies clans[k], clans[k].nodes
      ensures Valid() && clans == old(clans) && clans[k].nodes == RemoveAt(old(clans[k].nodes), i)
      ensures Now() == WithClan(old(Now()), k,
        old(ValueOf(clans[k])).(members := RemoveAt(old(clans[k].Members()), i)))
    {
      clans[k].RemoveMember(member, i);
      OneChanged(k);
    }

    method Clamp(k: nat, top: nat)
      requires Valid() && k < |clans|
      modifies clans[k], clans[k].nodes
      ensures Valid() && clans == old(clans)
      ensures Now() == WithClan(old(Now()), k,
        old(ValueOf(clans[k])).(topRank := top, names := CutNames(old(clans[k].names), top),
                                members := ClampAll(old(clans[k].Members()), top)))
    {
      clans[k].CutRankNames(top);
      clans[k].ClampRanks(top);
      OneChanged(k);
    }

    method NameRank(k: nat, rank: nat, name: string)
      requires Valid() && k < |clans| && rank < |clans[k].names|
      modifies clans[k]
      ensures Valid() && clans == old(clans)
      ensures Now() == WithClan(old(Now()), k, old(ValueOf(clans[k])).(names := old(clans[k].names)[rank := name]))
    {
      clans[k].names := clans[k].names[rank := name];
      OneChanged(k);
    }

    method Disown(k: nat)
      requires Valid() && k < |clans|
      modifies clans[k]
      ensures Valid() && clans == old(clans) && clans[k].nodes == old(clans[k].nodes)
      ensures Now() == WithClan(old(Now()), k, old(ValueOf(clans[k])).(owner := 0))
    {
      clans[k].owner := 0;
      OneChanged(k);
    }

    /** Takes the first member with the number off the list of clan k, if there is one. */
    method DropMember(k: nat, id: int)
      requires Valid() && k < |clans|
      modifies clans[k], clans[k].nodes
      ensures Valid() && clans == old(clans)
      ensures forall n | n in clans[k].nodes :: n in old(clans[k].nodes)
      ensures Now() == WithClan(old(Now()), k,
        old(ValueOf(clans[k])).(members := Without(old(clans[k].Members()), id)))
    {
      var member := FindMember(k, id);
      if member != null {
        Unlink(k, Find(clans[k].Members(), id), member);
      } else {
        assert Now().clans[k := ValueOf(clans[k])] == Now().clans;
      }
    }

    method SetPlayer(id: int, p: Player)
      requires Valid()
      modifies this`players
      ensures Valid() && Now() == WithPlayer(old(Now()), id, p)
    {
      players := players[id := p];
    }

    method SetRows(rows': set<Row>)
      requires Valid()
      modifies this`rows
      ensures Valid() && Now() == old(Now()).(rows := rows')
    {
      rows := rows';
    }

    method SetTitles(titles': set<Title>)
      requires Valid()
      modifies this`titles
      ensures Valid() && Now() == old(Now()).(titles := titles')
    {
      titles := titles';
    }

    method Induct(k: nat, id: int)
      requires Valid() && k < |clans| && id in players
      modifies this, clans[k], clans[k].nodes
      ensures Valid() && clans == old(clans)
      ensures Now() == ClanRules.Induct(old(Now()), k, id)
    {
      SetPlayer(id, players[id].(leader := false, clan := clans[k].number));
      AddSorted(k, id);
      SetRows(rows + {Row(clans[k].number, id, 0, false)});
    }

    method Leave(k: nat, id: int)
      requires Valid() && k < |clans| && id in players
      modifies this, clans[k], clans[k].nodes
      ensures Valid() && clans == old(clans)
      ensures Now() == ClanRules.Leave(old(Now()), k, id)
    {
      SetPlayer(id, players[id].(clan := 0, leader := false));
      DropMember(k, id);
      SetRows(DeletePlayer(rows, id));
    }

    // ---------- Commands ----------

    method CanEnroll(ch: int, vict: int, k: nat) returns (ok: bool)
      requires Valid() && k < |clans| && ch in players && vict in players
      modifies this, clans[k], clans[k].nodes
      ensures Valid() && clans == old(clans)
      ensures forall n | n in clans[k].nodes :: n in old(clans[k].nodes)
      ensures Now() == ClanRules.CanEnroll(old(Now()), ch, vict, k).0
      ensures ok == ClanRules.CanEnroll(old(Now()), ch, vict, k).1
    {
      var actor, v := players[ch], players[vict];
      var own := RealClanOf(v.clan);
      if own < |clans| {
        var member := FindMember(own, vict);
        if member == null {
          SetPlayer(vict, v.(clan := 0));
        }
        return false;
      }
      DropMember(k, vict);
      assert Now().clans[k] == ValueOf(clans[k]);
      if v.npc || actor.charmed {
        return false;
      }
      if actor.admin {
        return true;
      }
      var count := CountMembers(k);
      if v.frozen || (v.level < LVL_CAN_CLAN && v.remort == 0) || count > MAX_CLAN_MEMBERS {
        return false;
      }
      ok := clans[k].owner == ch || (actor.clan == clans[k].number && actor.leader);
    }

    method Enroll(ch: int, vict: int, named: int)
      requires Valid()
      modifies this, clans, Nodes()
      ensures Valid() && clans == old(clans) && Now() == ClanRules.Enroll(old(Now()), ch, vict, named)
    {
      if ch !in players || vict !in players {
        return;
      }
      var k := RealClanOf(if players[ch].admin then named else players[ch].clan);
      if k == |clans| {
        return;
      }
      var ok := CanEnroll(ch, vict, k);
      assert forall i | 0 <= i < |clans[k].nodes| :: clans[k].nodes[i] in clans[k].nodes;
      if ok {
        Induct(k, vict);
      }
    }

    method Joins(ch: int, named: int, password: string) returns (ok: bool)
      requires Valid()
      ensures Valid() && Now() == old(Now()) && Nodes() == old(Nodes())
      ensures ok == ClanRules.Joins(Now(), ch, named, password)
    {
      var k := RealClanOf(named);
      if ch !in players || k == |clans| {
        return false;
      }
      var p := players[ch];
      assert Now().clans[k] == ValueOf(clans[k]);
      if clans[k].number == p.clan {
        return false;
      }
      if !p.admin {
        var count := CountMembers(k);
        if password == "" || p.clan != 0 || clans[k].password == "" || clans[k].password != password
          || (p.level < LVL_CAN_CLAN && p.remort == 0) || count > MAX_CLAN_MEMBERS {
          return false;
        }
      }
      ok := !p.npc && !p.charmed;
    }

    method Join(ch: int, named: int, password: string)
      requires Valid()
      modifies this, clans, Nodes()
      ensures Valid() && clans == old(clans) && Now() == ClanRules.Join(old(Now()), ch, named, password)
    {
      var ok := Joins(ch, named, password);
      if ok {
        var k := RealClanOf(named);
        Induct(k, ch);
      }
    }

    method CanDismiss(ch: int, vict: int, k: nat) returns (ok: bool)
      requires Valid() && k < |clans| && ch in players && vict in players
      ensures Valid() && Now() == old(Now()) && Nodes() == old(Nodes())
      ensures ok == ClanRules.CanDismiss(Now(), ch, vict, k)
    {
      var actor, v := players[ch], players[vict];
      if vict == ch || actor.charmed {
        return false;
      }
      if actor.admin {
        return true;
      }
      var own := FindMember(k, ch);
      var other := FindMember(k, vict);
      if own == null || other == null || v.clan != actor.clan {
        return false;
      }
      ok := clans[k].owner == ch
        || (actor.clan == clans[k].number && actor.leader && own.rank > other.rank && !v.leader);
    }

    method Dismiss(ch: int, vict: int)
      requires Valid()
      modifies this, clans, Nodes()
      ensures Valid() && clans == old(clans) && Now() == ClanRules.Dismiss(old(Now()), ch, vict)
    {
      if ch !in players || vict !in players || players[vict].npc {
        return;
      }
      ghost var w := Now();
      var own := RealClanOf(players[ch].clan);
      var k := RealClanOf(players[vict].clan);
      if (own == |clans| && !players[ch].admin) || k == |clans| {
        return;
      }
      var ok := CanDismiss(ch, vict, k);
      assert Now() == w;
      if ok {
        Leave(k, vict);
      }
    }

    method Resign(ch: int, confirmed: bool)
      requires Valid()
      modifies this, clans, Nodes()
      ensures Valid() && clans == old(clans) && Now() == ClanRules.Resign(old(Now()), ch, confirmed)
    {
      if ch !in players || players[ch].npc {
        return;
      }
      var k := RealClanOf(players[ch].clan);
      if k < |clans| && !players[ch].charmed && confirmed {
        if clans[k].owner == ch {
          Disown(k);
        } else {
          assert Now().clans[k := ValueOf(clans[k])] == Now().clans;
        }
        Leave(k, ch);
      }
    }

    method CanPromote(ch: int, vict: int, k: nat) returns (ok: bool)
      requires Valid() && k < |clans| && ch in players && vict in players
      ensures Valid() && Now() == old(Now()) && Nodes() == old(Nodes())
      ensures ok == ClanRules.CanPromote(Now(), ch, vict, k)
    {
      var actor, v := players[ch], players[vict];
      var own := FindMember(k, ch);
      var other := FindMember(k, vict);
      if actor.charmed || own == null || other == null {
        return false;
      }
      if other.rank >= clans[k].topRank && v.leader {
        return false;
      }
      if actor.admin {
        return true;
      }
      var victClan := RealClanOf(v.clan);
      if victClan != k {
        return false;
      }
      ok := clans[k].owner == ch || (vict != ch && (actor.leader || own.rank > other.rank));
    }

    method Rerank(k: nat, ghost i: nat, member: Member, rank: int)
      requires Valid() && k < |clans| && i < |clans[k].nodes| && clans[k].nodes[i] == member
      modifies clans[k], clans[k].nodes
      ensures Valid() && clans == old(clans)
      ensures Now() == WithClan(old(Now()), k,
        old(ValueOf(clans[k])).(members := SortByRank(SetRank(old(clans[k].Members()), i, rank))))
    {
      ghost var w := Now();
      assert clans[k].Members()[i] == member.Value();
      ChangeMember(k, i, member, rank, member.noMail);
      ghost var c := ValueOf(clans[k]);
      assert Now().clans[k] == c;
      SortClan(k);
      SetTwice(w, k, c, ValueOf(clans[k]));
    }

    method ChangeRank(k: nat, ghost i: nat, member: Member, rank: int)
      requires Valid() && k < |clans| && i < |clans[k].nodes| && clans[k].nodes[i] == member
      modifies this, clans[k], clans[k].nodes
      ensures Valid() && clans == old(clans)
      ensures Now() == ClanRules.ChangeRank(old(Now()), k, i, rank)
    {
      var id := member.idnum;
      assert Now().clans[k].members[i].idnum == id;
      Rerank(k, i, member, rank);
      SetRows(UpdateRank(rows, id, rank));
    }

    /** Gives a member one more rank, or at the top rank leadership. */
    method Raise(k: nat, ghost i: nat, member: Member, id: int)
      requires Valid() && k < |clans| && i < |clans[k].nodes| && clans[k].nodes[i] == member && id in players
      modifies this, clans[k], clans[k].nodes
      ensures Valid() && clans == old(clans)
      ensures Now() == ClanRules.Raise(old(Now()), k, i, id)
    {
      assert Now().clans[k] == ValueOf(clans[k]) && Now().clans[k].members[i] == member.Value();
      if member.rank >= clans[k].topRank {
        SetPlayer(id, players[id].(leader := true));
      } else {
        ChangeRank(k, i, member, member.rank + 1);
      }
    }

    method Promote(ch: int, vict: int)
      requires Valid()
      modifies this, clans, Nodes()
      ensures Valid() && clans == old(clans) && Now() == ClanRules.Promote(old(Now()), ch, vict)
    {
      if ch !in players || vict !in players {
        return;
      }
      var k := RealClanOf(players[ch].clan);
      if k == |clans| {
        return;
      }
      var ok := CanPromote(ch, vict, k);
      var member := FindMember(k, vict);
      if ok && member != null {
        Raise(k, Find(Now().clans[k].members, vict), member, vict);
      }
    }

    method CanDemote(ch: int, vict: int, k: nat, own: Member) returns (ok: bool)
      requires Valid() && k < |clans| && ch in players && vict in players
      requires Listed(Now().clans[k].members, ch)
      requires own.Value() == Now().clans[k].members[Find(Now().clans[k].members, ch)]
      ensures Valid() && Now() == old(Now()) && Nodes() == old(Nodes())
      ensures ok == ClanRules.CanDemote(Now(), ch, vict, k)
    {
      var victClan := RealClanOf(players[vict].clan);
      var other := FindMember(k, vict);
      ok := victClan == k && other != null && (players[ch].leader || players[ch].admin)
        && other.rank < own.rank && !players[vict].leader;
    }

    /** Lowers a member by one rank, or mends a rank below 0. */
    method Lower(k: nat, ghost i: nat, member: Member)
      requires Valid() && k < |clans| && i < |clans[k].nodes| && clans[k].nodes[i] == member
      modifies this, clans[k], clans[k].nodes
      ensures Valid() && clans == old(clans)
      ensures Now() == ClanRules.Lower(old(Now()), k, i)
    {
      assert Now().clans[k].members[i] == member.Value();
      if member.rank < 0 {
        ChangeMember(k, i, member, 0, member.noMail);
      } else if member.rank > 0 {
        ChangeRank(k, i, member, member.rank - 1);
      }
    }

    method Demote(ch: int, vict: int)
      requires Valid()
      modifies this, clans, Nodes()
      ensures Valid() && clans == old(clans) && Now() == ClanRules.Demote(old(Now()), ch, vict)
    {
      if ch !in players || vict !in players {
        return;
      }
      var k := RealClanOf(players[ch].clan);
      if k == |clans| {
        return;
      }
      var own := FindMember(k, ch);
      if own == null || players[ch].charmed {
        return;
      }
      ghost var ms := Now().clans[k].members;
      if ch == vict {
        if own.rank != 0 {
          ChangeRank(k, Find(ms, ch), own, own.rank - 1);
        }
        return;
      }
      var ok := CanDemote(ch, vict, k, own);
      var other := FindMember(k, vict);
      if ok && other != null {
        Lower(k, Find(ms, vict), other);
      }
    }

    method ClanMail(ch: int)
      requires Valid()
      modifies this, clans, Nodes()
      ensures Valid() && clans == old(clans) && Now() == ClanRules.ClanMail(old(Now()), ch)
    {
      if ch !in players {
        return;
      }
      var k := RealClanOf(players[ch].clan);
      if k == |clans| {
        return;
      }
      var member := FindMember(k, ch);
      if member != null {
        ghost var i := Find(clans[k].Members(), ch);
        var noMail := !member.noMail;
        assert Now().clans[k].members[i] == member.Value();
        ChangeMember(k, i, member, member.rank, noMail);
        SetRows(UpdateNoMail(rows, ch, noMail));
      }
    }

    // ---------- Editing ----------

    method Edited(ch: int, number: int) returns (k: nat)
      requires Valid()
      ensures Valid() && Now() == old(Now()) && Nodes() == old(Nodes())
      ensures k == ClanRules.Edited(Now(), ch, number)
    {
      k := RealClanOf(number);
      if ch !in players || (players[ch].level < LVL_CREATOR && number == QUAKER_CLAN) {
        k := |clans|;
      }
    }

    method SetTop(ch: int, number: int, top: int)
      requires Valid()
      modifies this, clans, Nodes()
      ensures Valid() && clans == old(clans) && Now() == ClanRules.SetTop(old(Now()), ch, number, top)
    {
      var k := Edited(ch, number);
      if k < |clans| && 0 <= top < NUM_CLAN_RANKS {
        Clamp(k, top);
        SetRows(ClampRows(rows, number, top));
        SetTitles(CutTitles(titles, number, top));
      }
    }

    method SetTitle(ch: int, number: int, rank: int, name: string)
      requires Valid()
      modifies this, clans, Nodes()
      ensures Valid() && clans == old(clans) && Now() == ClanRules.SetTitle(old(Now()), ch, number, rank, name)
    {
      var k := Edited(ch, number);
      if k == |clans| || rank < 0 || rank > clans[k].topRank || name == "" || |name| >= MAX_CLAN_RANKNAME {
        return;
      }
      assert Now().clans[k] == ValueOf(clans[k]);
      if rank < |clans[k].names| {
        var named := clans[k].names[rank] != "";
        NameRank(k, rank, name);
        if named {
          SetTitles(RenameTitle(titles, number, rank, name));
        } else {
          SetTitles(titles + {Title(number, rank, name)});
        }
      }
    }

    method RemoveListed(ch: int, number: int, id: int)
      requires Valid()
      modifies this, clans, Nodes()
      ensures Valid() && clans == old(clans) && Now() == ClanRules.RemoveListed(old(Now()), ch, number, id)
    {
      var k := Edited(ch, number);
      if k < |clans| {
        var member := FindMember(k, id);
        if member != null {
          DropMember(k, id);
          SetRows(DeleteMember(rows, number, id));
        }
      }
    }

    method Delete(ch: int, number: int)
      requires Valid()
      modifies this
      ensures Valid() && Now() == ClanRules.Delete(old(Now()), ch, number)
    {
      var k := Edited(ch, number);
      if k < |clans| {
        TakeClan(k);
        NotifyDisbanding(number);
        SetRows(DeleteClanRows(rows, number));
        SetTitles(DeleteTitles(titles, number));
      }
    }

    /** Players in the game lose a clan that is gone. */
    method NotifyDisbanding(number: int)
      requires Valid()
      modifies this`players
      ensures Valid() && Now() ==
        old(Now()).(players := map id | id in old(players) :: Disbanded(old(players)[id], number))
    {
      players := map id | id in players :: Disbanded(players[id], number);
    }

    method Create(number: int)
      requires Valid()
      modifies this
      ensures Valid() && Now() == ClanRules.Create(old(Now()), number)
    {
      var k := RealClanOf(number);
      if number > 0 && k == |clans| && number <= 255 {
        var p := PlaceFor(number);
        AddClan(p, number);
      }
    }

    method Execute(c: Command)
      requires Valid()
      modifies this, clans, Nodes()
      ensures Valid() && Now() == Apply(old(Now()), c)
    {
      match c
      case CmdEnroll(ch, vict, named) => Enroll(ch, vict, named);
      case CmdJoin(ch, named, password) => Join(ch, named, password);
      case CmdDismiss(ch, vict) => Dismiss(ch, vict);
      case CmdResign(ch, confirmed) => Resign(ch, confirmed);
      case CmdPromote(ch, vict) => Promote(ch, vict);
      case CmdDemote(ch, vict) => Demote(ch, vict);
      case CmdClanMail(ch) => ClanMail(ch);
      case CmdSetTop(ch, number, top) => SetTop(ch, number, top);
      case CmdSetTitle(ch, number, rank, name) => SetTitle(ch, number, rank, name);
      case CmdRemove(ch, number, id) => RemoveListed(ch, number, id);
      case CmdDelete(ch, number) => Delete(ch, number);
      case CmdCreate(number) => Create(number);
    }

    // ---------- Booting ----------

    /** Gives a clan the higher of its top rank and a titled one, and the name of that. */
    method AddTitle(k: nat, rank: nat, name: string)
      requires Valid() && k < |clans| && rank < |clans[k].names|
      modifies clans[k]
      ensures Valid() && clans == old(clans)
      ensures var c := old(ValueOf(clans[k]));
        Now() == WithClan(old(Now()), k,
          c.(topRank := if rank > c.topRank then rank else c.topRank, names := c.names[rank := name]))
    {
      if rank > clans[k].topRank {
        clans[k].topRank := rank;
      }
      clans[k].names := clans[k].names[rank := name];
      OneChanged(k);
    }

    /** Rebuilds the names and top ranks of new clans from the titles. */
    method BootRanks(titleRows: seq<Title>)
      requires Valid() && (forall k | 0 <= k < |clans| :: clans[k].topRank == 0 && clans[k].names == NO_NAMES)
      requires forall j, k | 0 <= j < k < |clans| :: clans[j].number != clans[k].number
      requires forall t | t in titleRows :: Exists(Now().clans, t.clan) && 0 <= t.rank < NUM_CLAN_RANKS
      modifies clans
      ensures Valid() && clans == old(clans) && Now() == WithRanks(old(Now()), titleRows)
    {
      ghost var w := Now();
      NothingTitled(w);
      assert titleRows[..0] == [];
      for n := 0 to |titleRows|
        invariant Valid() && clans == old(clans) && Now() == WithRanks(w, titleRows[..n])
      {
        var t := titleRows[n];
        assert t in titleRows;
        SameNumbers(w, WithRanks(w, titleRows[..n]), t.clan);
        var k := RealClanOf(t.clan);
        assert Now().clans[k] == ValueOf(clans[k]);
        AddTitle(k, t.rank, t.name);
        TitleOne(w, titleRows, n, k);
      }
      assert titleRows[..|titleRows|] == titleRows;
    }

    /** Rebuilds the member lists from the rows, which are in the order of the query's answer. */
    method BootMembers(order: seq<Row>)
      requires Valid() && (forall k | 0 <= k < |clans| :: clans[k].Members() == [])
      requires forall j, k | 0 <= j < k < |clans| :: clans[j].number != clans[k].number
      requires forall r | r in order :: Exists(Now().clans, r.clan)
      modifies clans
      ensures Valid() && clans == old(clans) && Now() == WithLists(old(Now()), order)
    {
      ghost var w := Now();
      NothingBooted(w);
      assert order[..0] == [];
      for n := 0 to |order|
        invariant Valid() && clans == old(clans) && Now() == WithLists(w, order[..n])
      {
        var r := order[n];
        assert r in order;
        SameNumbers(w, WithLists(w, order[..n]), r.clan);
        var k := RealClanOf(r.clan);
        assert Now().clans[k] == ValueOf(clans[k]);
        PutInFront(k, MemberVal(r.player, r.rank, r.noMail));
        BootOne(w, order, n, k);
      }
      assert order[..|order|] == order;
    }

    /** Boots new clans: ranks from one table, then members from the other. */
    method Boot(titleRows: seq<Title>, order: seq<Row>)
      requires Valid()
      requires forall k | 0 <= k < |clans| ::
        clans[k].topRank == 0 && clans[k].names == NO_NAMES && clans[k].Members() == []
      requires forall j, k | 0 <= j < k < |clans| :: clans[j].number != clans[k].number
      requires forall t | t in titleRows :: Exists(Now().clans, t.clan) && 0 <= t.rank < NUM_CLAN_RANKS
      requires forall r | r in order :: Exists(Now().clans, r.clan)
      modifies clans
      ensures Valid() && clans == old(clans) && Now() == Reboot(old(Now()), titleRows, order)
    {
      ghost var w := Now();
      BootRanks(titleRows);
      forall k | 0 <= k < |clans| ensures clans[k].Members() == [] {
        assert w.clans[k].members == [] && Now().clans[k] == ValueOf(clans[k]);
      }
      forall r | r in order ensures Exists(Now().clans, r.clan) {
        SameNumbers(w, Now(), r.clan);
      }
      BootMembers(order);
    }

    method TakeClan(k: nat)
      requires Valid() && k < |clans|
      modifies this`clans
      ensures Valid() && Now() == old(Now()).(clans := RemoveAt(old(ClanVals()), k))
    {
      ghost var was, vals := clans, ClanVals();
      clans := RemoveAt(clans, k);
      assert forall j | 0 <= j < |clans| :: clans[j] == was[if j < k then j else j + 1];
      assert ClanVals() == RemoveAt(vals, k);
    }

    method AddClan(p: nat, number: int)
      requires Valid() && p <= |clans|
      modifies this`clans
      ensures Valid()
      ensures Now() == old(Now()).(clans := old(ClanVals())[..p] + [NewClan(number)] + old(ClanVals())[p..])
    {
      var clan := new Clan(number, "");
      assert ValueOf(clan) == NewClan(number);
      PutClan(p, clan);
    }

    method PutClan(p: nat, clan: Clan)
      requires Valid() && p <= |clans| && clan !in clans && clan.Valid() && clan.nodes == []
      modifies this`clans
      ensures Valid()
      ensures Now() == old(Now()).(clans := old(ClanVals())[..p] + [ValueOf(clan)] + old(ClanVals())[p..])
    {
      ghost var was, vals := clans, ClanVals();
      clans := clans[..p] + [clan] + clans[p..];
      assert forall j | 0 <= j < |clans| :: clans[j] == if j < p then was[j] else if j == p then clan else was[j - 1];
      assert ClanVals() == vals[..p] + [ValueOf(clan)] + vals[p..];
    }

    method PlaceFor(number: int) returns (p: nat)
      requires Valid()
      ensures Valid() && Now() == old(Now()) && Nodes() == old(Nodes())
      ensures p == NewPlace(Now().clans, number)
    {
      if clans == [] || number < clans[0].number {
        return 0;
      }
      p := 0;
      ghost var vals := ClanVals();
      while !(p + 1 == |clans| || (clans[p].number < number && clans[p + 1].number > number))
        invariant p < |clans| && NewPlaceAfter(vals, number) == p + NewPlaceAfter(vals[p..], number)
        decreases |clans| - p
      {
        assert vals[p..][1..] == vals[p + 1..];
        p := p + 1;
      }
      p := p + 1;
    }
  }

  lemma NothingTitled(w: World)
    requires forall k | 0 <= k < |w.clans| :: w.clans[k].topRank == 0 && w.clans[k].names == NO_NAMES
    ensures WithRanks(w, []) == w
  {
    assert WithRanks(w, []).clans == w.clans;
  }

  lemma NothingBooted(w: World)
    requires forall k | 0 <= k < |w.clans| :: w.clans[k].members == []
    ensures WithLists(w, []) == w
  {
    assert WithLists(w, []).clans == w.clans;
  }

  lemma SameNumbers(w: World, w': World, number: int)
    requires Exists(w.clans, number) && |w.clans| == |w'.clans|
    requires forall k | 0 <= k < |w.clans| :: w.clans[k].number == w'.clans[k].number
    ensures RealClan(w'.clans, number) == RealClan(w.clans, number)
  {
    Position(w'.clans, number, RealClan(w.clans, number));
  }

  lemma TitleOne(w: World, titles: seq<Title>, n: nat, k: nat)
    requires n < |titles| && k < |w.clans| && w.clans[k].number == titles[n].clan
      && 0 <= titles[n].rank < NUM_CLAN_RANKS
    requires forall i, j | 0 <= i < j < |w.clans| :: w.clans[i].number != w.clans[j].number
    ensures var w1, t := WithRanks(w, titles[..n]), titles[n];
      var c := w1.clans[k];
      WithRanks(w, titles[..n + 1]) ==
        WithClan(w1, k, c.(
          topRank := if t.rank > c.topRank then t.rank else c.topRank, names := c.names[t.rank := t.name]))
  {
    var w1, w2 := WithRanks(w, titles[..n]), WithRanks(w, titles[..n + 1]);
    assert titles[..n + 1][..n] == titles[..n];
    assert forall j | 0 <= j < |w.clans| && j != k :: w2.clans[j] == w1.clans[j];
  }

  lemma BootOne(w: World, order: seq<Row>, n: nat, k: nat)
    requires n < |order| && k < |w.clans| && w.clans[k].number == order[n].clan
    requires forall i, j | 0 <= i < j < |w.clans| :: w.clans[i].number != w.clans[j].number
    ensures var w1, r := WithLists(w, order[..n]), order[n];
      WithLists(w, order[..n + 1]) ==
        WithClan(w1, k, w1.clans[k].(members := [MemberVal(r.player, r.rank, r.noMail)] + w1.clans[k].members))
  {
    var w1, w2 := WithLists(w, order[..n]), WithLists(w, order[..n + 1]);
    assert order[..n + 1][..n] == order[..n];
    assert forall j | 0 <= j < |w.clans| && j != k :: w2.clans[j] == w1.clans[j];
  }

  lemma SetTwice(w: World, k: nat, c: ClanVal, d: ClanVal)
    requires k < |w.clans|
    ensures WithClan(WithClan(w, k, c), k, d) == WithClan(w, k, d)
  {
  }

  lemma Position(clans: seq<ClanVal>, number: int, k: nat)
    requires number != 0 && k <= |clans| && (k < |clans| ==> clans[k].number == number)
    requires forall j | 0 <= j < k :: clans[j].number != number
    ensures RealClan(clans, number) == k
  {
  }
}
