/** The rules of clan membership: what each command makes of the clans, the players and the
    clan_members table. */
module ClanRules {
  import opened ClanList

  const MAX_CLAN_MEMBERS := 200
  const MAX_CLAN_RANKNAME := 48
  const LVL_CAN_CLAN := 10
  const LVL_CREATOR := 67
  const QUAKER_CLAN := 6

  datatype ClanVal = ClanVal(number: int, password: string, topRank: int, owner: int, names: seq<string>,
                             members: seq<MemberVal>)

  /** A character, in the game or in its file. clan is the number of its clan, 0 for none. */
  datatype Player = Player(clan: int, leader: bool, npc: bool, charmed: bool, frozen: bool, level: int, remort: int,
                           admin: bool, online: bool)

  /** A row of the clan_members table. */
  datatype Row = Row(clan: int, player: int, rank: int, noMail: bool)

  /** A row of the clan_ranks table. */
  datatype Title = Title(clan: int, rank: int, name: string)

  datatype World = World(clans: seq<ClanVal>, players: map<int, Player>, rows: set<Row>, titles: set<Title>)

  // ---------- Looking things up ----------

  /** The position of the clan with the given number, or the number of clans; 0 is no clan. */
  function RealClan(clans: seq<ClanVal>, number: int): (k: nat)
    ensures k <= |clans|
    ensures k < |clans| ==> clans[k].number == number && number != 0
    ensures forall j | 0 <= j < k :: number == 0 || clans[j].number != number
    decreases |clans|
  {
    if number == 0 || clans == [] then |clans|
    else if clans[0].number == number then 0
    else 1 + RealClan(clans[1..], number)
  }

  predicate Exists(clans: seq<ClanVal>, number: int) {
    RealClan(clans, number) < |clans|
  }

  predicate Known(w: World, id: int) {
    id in w.players
  }

  function WithPlayer(w: World, id: int, p: Player): World {
    w.(players := w.players[id := p])
  }

  function WithClan(w: World, k: nat, c: ClanVal): World
    requires k < |w.clans|
  {
    w.(clans := w.clans[k := c])
  }

  // ---------- The table ----------

  function DeletePlayer(rows: set<Row>, id: int): set<Row> {
    set r | r in rows && r.player != id
  }

  function DeleteMember(rows: set<Row>, clan: int, id: int): set<Row> {
    set r | r in rows && !(r.clan == clan && r.player == id)
  }

  function DeleteClanRows(rows: set<Row>, clan: int): set<Row> {
    set r | r in rows && r.clan != clan
  }

  function UpdateRank(rows: set<Row>, id: int, rank: int): set<Row> {
    set r | r in rows :: if r.player == id then r.(rank := rank) else r
  }

  function UpdateNoMail(rows: set<Row>, id: int, noMail: bool): set<Row> {
    set r | r in rows :: if r.player == id then r.(noMail := noMail) else r
  }

  function ClampRow(r: Row, clan: int, top: int): Row {
    if r.clan == clan && r.rank > top then r.(rank := top) else r
  }

  function ClampRows(rows: set<Row>, clan: int, top: int): set<Row> {
    set r | r in rows :: ClampRow(r, clan, top)
  }

  function CutTitles(titles: set<Title>, clan: int, top: int): set<Title> {
    set t | t in titles && !(t.clan == clan && t.rank > top)
  }

  function DeleteTitles(titles: set<Title>, clan: int): set<Title> {
    set t | t in titles && t.clan != clan
  }

  function Renamed(t: Title, clan: int, rank: int, name: string): Title {
    if t.clan == clan && t.rank == rank then t.(name := name) else t
  }

  function RenameTitle(titles: set<Title>, clan: int, rank: int, name: string): set<Title> {
    set t | t in titles :: Renamed(t, clan, rank, name)
  }

  // ---------- Members ----------

  function SetRank(ms: seq<MemberVal>, i: nat, rank: int): seq<MemberVal>
    requires i < |ms|
  {
    ms[i := ms[i].(rank := rank)]
  }

  /** A player becomes a new member of clan k. */
  function Induct(w: World, k: nat, id: int): World
    requires k < |w.clans| && Known(w, id)
  {
    var c := w.clans[k];
    var members := SortByRank([MemberVal(id, 0, false)] + c.members);
    var w1 := WithPlayer(w, id, w.players[id].(leader := false, clan := c.number));
    WithClan(w1, k, c.(members := members)).(rows := w.rows + {Row(c.number, id, 0, false)})
  }

  // ---------- Commands ----------

  /** What testing whether ch can enroll vict makes of the world, and the answer. */
  function CanEnroll(w: World, ch: int, vict: int, k: nat): (r: (World, bool))
    requires k < |w.clans| && Known(w, ch) && Known(w, vict)
    ensures |r.0.clans| == |w.clans| && r.0.players.Keys == w.players.Keys
  {
    var v := w.players[vict];
    var own := RealClan(w.clans, v.clan);
    if own < |w.clans| then
      if Listed(w.clans[own].members, vict) then (w, false)
      else (WithPlayer(w, vict, v.(clan := 0)), false)
    else
      var c := w.clans[k].(members := Without(w.clans[k].members, vict));
      var w1 := WithClan(w, k, c);
      var actor := w.players[ch];
      if v.npc || actor.charmed then (w1, false)
      else if actor.admin then (w1, true)
      else if v.frozen || (v.level < LVL_CAN_CLAN && v.remort == 0) || |c.members| > MAX_CLAN_MEMBERS then (w1, false)
      else if c.owner == ch then (w1, true)
      else (w1, actor.clan == c.number && actor.leader)
  }

  function Enroll(w: World, ch: int, vict: int, named: int): World {
    if !Known(w, ch) || !Known(w, vict) then w
    else
      var k := RealClan(w.clans, if w.players[ch].admin then named else w.players[ch].clan);
      if k == |w.clans| then w
      else
        var r := CanEnroll(w, ch, vict, k);
        if r.1 then Induct(r.0, k, vict) else r.0
  }

  predicate Joins(w: World, ch: int, named: int, password: string) {
    && Known(w, ch) && Exists(w.clans, named)
    && var p, c := w.players[ch], w.clans[RealClan(w.clans, named)];
    && c.number != p.clan
    && (!p.admin ==>
          && password != "" && p.clan == 0 && c.password != "" && c.password == password
          && !(p.level < LVL_CAN_CLAN && p.remort == 0)
          && |c.members| <= MAX_CLAN_MEMBERS)
    && !p.npc && !p.charmed
  }

  function Join(w: World, ch: int, named: int, password: string): World {
    if Joins(w, ch, named, password) then Induct(w, RealClan(w.clans, named), ch) else w
  }

  predicate CanDismiss(w: World, ch: int, vict: int, k: nat)
    requires k < |w.clans| && Known(w, ch) && Known(w, vict)
  {
    var ms := w.clans[k].members;
    var actor, v := w.players[ch], w.players[vict];
    if vict == ch || actor.charmed then false
    else if actor.admin then true
    else if !Listed(ms, ch) || !Listed(ms, vict) || v.clan != actor.clan then false
    else if w.clans[k].owner == ch then true
    else
      && actor.clan == w.clans[k].number && actor.leader
      && ms[Find(ms, ch)].rank > ms[Find(ms, vict)].rank
      && !v.leader
  }

  /** A player leaves clan k. */
  function Leave(w: World, k: nat, id: int): World
    requires k < |w.clans| && Known(w, id)
  {
    var c := w.clans[k];
    var w1 := WithPlayer(w, id, w.players[id].(clan := 0, leader := false));
    WithClan(w1, k, c.(members := Without(c.members, id))).(rows := DeletePlayer(w.rows, id))
  }

  function Dismiss(w: World, ch: int, vict: int): World {
    if !Known(w, ch) || !Known(w, vict) || w.players[vict].npc then w
    else if !Exists(w.clans, w.players[ch].clan) && !w.players[ch].admin then w
    else
      var k := RealClan(w.clans, w.players[vict].clan);
      if k == |w.clans| || !CanDismiss(w, ch, vict, k) then w else Leave(w, k, vict)
  }

  function Resign(w: World, ch: int, confirmed: bool): World {
    if !Known(w, ch) || w.players[ch].npc then w
    else
      var k := RealClan(w.clans, w.players[ch].clan);
      if k == |w.clans| || w.players[ch].charmed || !confirmed then w
      else
        var c := w.clans[k];
        Leave(WithClan(w, k, if c.owner == ch then c.(owner := 0) else c), k, ch)
  }

  predicate CanPromote(w: World, ch: int, vict: int, k: nat)
    requires k < |w.clans| && Known(w, ch) && Known(w, vict)
  {
    var c := w.clans[k];
    var actor, v := w.players[ch], w.players[vict];
    if actor.charmed || !Listed(c.members, ch) || !Listed(c.members, vict) then false
    else
      var own, other := c.members[Find(c.members, ch)], c.members[Find(c.members, vict)];
      if other.rank >= c.topRank && v.leader then false
      else if actor.admin then true
      else if RealClan(w.clans, v.clan) != k then false
      else if c.owner == ch then true
      else if vict == ch then false
      else actor.leader || own.rank > other.rank
  }

  /** Member i of clan k gets a new rank, in memory and in the table. */
  function ChangeRank(w: World, k: nat, i: nat, rank: int): World
    requires k < |w.clans| && i < |w.clans[k].members|
  {
    var c := w.clans[k];
    WithClan(w, k, c.(members := SortByRank(SetRank(c.members, i, rank))))
      .(rows := UpdateRank(w.rows, c.members[i].idnum, rank))
  }

  /** Member i of clan k gains a rank or, at the top rank, becomes a leader. */
  function Raise(w: World, k: nat, i: nat, id: int): World
    requires k < |w.clans| && i < |w.clans[k].members| && Known(w, id)
  {
    var c := w.clans[k];
    if c.members[i].rank >= c.topRank then WithPlayer(w, id, w.players[id].(leader := true))
    else ChangeRank(w, k, i, c.members[i].rank + 1)
  }

  function Promote(w: World, ch: int, vict: int): World {
    if !Known(w, ch) || !Known(w, vict) then w
    else
      var k := RealClan(w.clans, w.players[ch].clan);
      if k == |w.clans| || !CanPromote(w, ch, vict, k) then w
      else
        Raise(w, k, Find(w.clans[k].members, vict), vict)
  }

  /** Whether ch can demote another member of the clan. */
  predicate CanDemote(w: World, ch: int, vict: int, k: nat)
    requires k < |w.clans| && Known(w, ch) && Known(w, vict) && Listed(w.clans[k].members, ch)
  {
    var ms := w.clans[k].members;
    && RealClan(w.clans, w.players[vict].clan) == k && Listed(ms, vict)
    && (w.players[ch].leader || w.players[ch].admin)
    && ms[Find(ms, vict)].rank < ms[Find(ms, ch)].rank && !w.players[vict].leader
  }

  /** Member i of clan k loses a rank; a rank below 0 is only mended in memory. */
  function Lower(w: World, k: nat, i: nat): World
    requires k < |w.clans| && i < |w.clans[k].members|
  {
    var c := w.clans[k];
    if c.members[i].rank < 0 then WithClan(w, k, c.(members := SetRank(c.members, i, 0)))
    else if c.members[i].rank == 0 then w
    else ChangeRank(w, k, i, c.members[i].rank - 1)
  }

  function Demote(w: World, ch: int, vict: int): World {
    if !Known(w, ch) || !Known(w, vict) then w
    else
      var k := RealClan(w.clans, w.players[ch].clan);
      if k == |w.clans| || !Listed(w.clans[k].members, ch) || w.players[ch].charmed then w
      else
        var ms := w.clans[k].members;
        var own := ms[Find(ms, ch)];
        if ch == vict then
          if own.rank == 0 then w else ChangeRank(w, k, Find(ms, ch), own.rank - 1)
        else if CanDemote(w, ch, vict, k) then Lower(w, k, Find(ms, vict))
        else w
  }

  function ClanMail(w: World, ch: int): World {
    if !Known(w, ch) then w
    else
      var k := RealClan(w.clans, w.players[ch].clan);
      if k == |w.clans| || !Listed(w.clans[k].members, ch) then w
      else
        var c := w.clans[k];
        var i := Find(c.members, ch);
        var noMail := !c.members[i].noMail;
        WithClan(w, k, c.(members := c.members[i := c.members[i].(noMail := noMail)]))
          .(rows := UpdateNoMail(w.rows, ch, noMail))
  }

  /** The clan that an administrator's edit is about, if it may be edited. */
  function Edited(w: World, ch: int, number: int): (k: nat)
    ensures k <= |w.clans|
    ensures k < |w.clans| ==> k == RealClan(w.clans, number) && w.clans[k].number == number
  {
    if !Known(w, ch) || (w.players[ch].level < LVL_CREATOR && number == QUAKER_CLAN) then |w.clans|
    else RealClan(w.clans, number)
  }

  function SetTop(w: World, ch: int, number: int, top: int): World {
    var k := Edited(w, ch, number);
    if k == |w.clans| || top < 0 || top >= NUM_CLAN_RANKS then w
    else
      var c := w.clans[k];
      WithClan(w, k, c.(topRank := top, names := CutNames(c.names, top), members := ClampAll(c.members, top)))
        .(rows := ClampRows(w.rows, number, top), titles := CutTitles(w.titles, number, top))
  }

  /** A rank within the top rank gets a name. There is a place for it as long as the top rank is in bounds. */
  function SetTitle(w: World, ch: int, number: int, rank: int, name: string): World {
    var k := Edited(w, ch, number);
    if k == |w.clans| || rank < 0 || rank > w.clans[k].topRank || name == "" || |name| >= MAX_CLAN_RANKNAME then w
    else
      var c := w.clans[k];
      if rank >= |c.names| then w
      else
        WithClan(w, k, c.(names := c.names[rank := name]))
          .(titles := if c.names[rank] != "" then RenameTitle(w.titles, number, rank, name)
                      else w.titles + {Title(number, rank, name)})
  }

  function RemoveListed(w: World, ch: int, number: int, id: int): World {
    var k := Edited(w, ch, number);
    if k == |w.clans| || !Listed(w.clans[k].members, id) then w
    else
      var c := w.clans[k];
      WithClan(w, k, c.(members := Without(c.members, id))).(rows := DeleteMember(w.rows, number, id))
  }

  /** Players in the game lose a clan that is disbanded; those who are not keep its number. */
  function Disbanded(p: Player, number: int): Player {
    if p.online && !p.npc && p.clan == number then p.(clan := 0) else p
  }

  function Delete(w: World, ch: int, number: int): World {
    var k := Edited(w, ch, number);
    if k == |w.clans| then w
    else
      World(RemoveAt(w.clans, k), map id | id in w.players :: Disbanded(w.players[id], number),
            DeleteClanRows(w.rows, number), DeleteTitles(w.titles, number))
  }

  /** Where a new clan goes in the list. */
  function NewPlace(clans: seq<ClanVal>, number: int): (p: nat)
    ensures p <= |clans|
  {
    if clans == [] || number < clans[0].number then 0 else 1 + NewPlaceAfter(clans, number)
  }

  /** The first clan after which a new one goes: the last one, or one below it before one above it. */
  function NewPlaceAfter(clans: seq<ClanVal>, number: int): (p: nat)
    requires clans != []
    ensures p < |clans|
  {
    if |clans| == 1 || (clans[0].number < number && clans[1].number > number) then 0
    else 1 + NewPlaceAfter(clans[1..], number)
  }

  function NewClan(number: int): ClanVal {
    ClanVal(number, "", 0, 0, NO_NAMES, [])
  }

  function Create(w: World, number: int): World {
    if number <= 0 || Exists(w.clans, number) || number > 255 then w
    else
      var p := NewPlace(w.clans, number);
      w.(clans := w.clans[..p] + [NewClan(number)] + w.clans[p..])
  }

  datatype Command =
    | CmdEnroll(ch: int, vict: int, named: int)
    | CmdJoin(ch: int, named: int, password: string)
    | CmdDismiss(ch: int, vict: int)
    | CmdResign(ch: int, confirmed: bool)
    | CmdPromote(ch: int, vict: int)
    | CmdDemote(ch: int, vict: int)
    | CmdClanMail(ch: int)
    | CmdSetTop(ch: int, number: int, top: int)
    | CmdSetTitle(ch: int, number: int, rank: int, name: string)
    | CmdRemove(ch: int, number: int, id: int)
    | CmdDelete(ch: int, number: int)
    | CmdCreate(number: int)

  function Apply(w: World, c: Command): World {
    match c
    case CmdEnroll(ch, vict, named) => Enroll(w, ch, vict, named)
    case CmdJoin(ch, named, password) => Join(w, ch, named, password)
    case CmdDismiss(ch, vict) => Dismiss(w, ch, vict)
    case CmdResign(ch, confirmed) => Resign(w, ch, confirmed)
    case CmdPromote(ch, vict) => Promote(w, ch, vict)
    case CmdDemote(ch, vict) => Demote(w, ch, vict)
    case CmdClanMail(ch) => ClanMail(w, ch)
    case CmdSetTop(ch, number, top) => SetTop(w, ch, number, top)
    case CmdSetTitle(ch, number, rank, name) => SetTitle(w, ch, number, rank, name)
    case CmdRemove(ch, number, id) => RemoveListed(w, ch, number, id)
    case CmdDelete(ch, number) => Delete(w, ch, number)
    case CmdCreate(number) => Create(w, number)
  }

  /** The world after a run of commands. */
  function Run(w: World, cs: seq<Command>): World
    decreases |cs|
  {
    if cs == [] then w else Run(Apply(w, cs[0]), cs[1..])
  }

  // ---------- Reading the tables back ----------

  /** The member list that a boot builds for a clan: each row of the clan in turn is put in front. */
  function BootList(order: seq<Row>, number: int): seq<MemberVal> {
    if order == [] then []
    else
      var last := order[|order| - 1];
      var before := BootList(order[..|order| - 1], number);
      if last.clan == number then [MemberVal(last.player, last.rank, last.noMail)] + before else before
  }

  /** The top rank that a boot finds for a clan: the highest that has a title. */
  function BootTop(titles: seq<Title>, number: int): int {
    if titles == [] then 0
    else
      var last := titles[|titles| - 1];
      var before := BootTop(titles[..|titles| - 1], number);
      if last.clan == number && last.rank > before then last.rank else before
  }

  /** The names that a boot gives the ranks of a clan. */
  function BootNames(titles: seq<Title>, number: int): (r: seq<string>)
    ensures |r| == NUM_CLAN_RANKS
  {
    if titles == [] then NO_NAMES
    else
      var last := titles[|titles| - 1];
      var before := BootNames(titles[..|titles| - 1], number);
      if last.clan == number && 0 <= last.rank < NUM_CLAN_RANKS then before[last.rank := last.name] else before
  }

  function BootRanks(c: ClanVal, titles: seq<Title>): ClanVal {
    c.(topRank := BootTop(titles, c.number), names := BootNames(titles, c.number))
  }

  /** The world with the ranks of every clan rebuilt from the titles. */
  function WithRanks(w: World, titles: seq<Title>): World {
    w.(clans := seq(|w.clans|, k requires 0 <= k < |w.clans| => BootRanks(w.clans[k], titles)))
  }

  /** The world with every member list rebuilt from the rows. */
  function WithLists(w: World, order: seq<Row>): World {
    w.(clans := seq(|w.clans|, k requires 0 <= k < |w.clans| =>
         w.clans[k].(members := BootList(order, w.clans[k].number))))
  }

  /** The world after a boot: ranks from one table, then members from the other. */
  function Reboot(w: World, titles: seq<Title>, order: seq<Row>): World {
    WithLists(WithRanks(w, titles), order)
  }
}
