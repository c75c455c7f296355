/** The room records of a world file: their printed form, and the line-driven machine that reads
    them back. The file on disk is the text; a record is a sequence of pieces, each of which is
    either one line or one tilde string. */
module Rooms {
  import opened Text
  import opened Pieces
  import opened Extradescs

  datatype Exit = Exit(direction: int, description: string, keywords: string,
                       exitInfo: string, key: int, toRoom: int)

  datatype Flow = Flow(direction: int, speed: int, kind: int)

  datatype Search = Search(triggers: string, keywords: string, toVict: string, toRoom: string,
                           toRemote: string, command: int, arg0: int, arg1: int, arg2: int,
                           flags: int, failure: Option<string>)

  datatype Room = Room(idnum: int, title: string, description: string,
                       zone: int, flags: string, sector: int,
                       directions: map<int, Exit>, extradescs: seq<Extradesc>, prog: string,
                       searches: seq<Search>, sound: string, flows: seq<Flow>,
                       occupancy: int, specialParam: string)

  const NEW_ROOM := Room(0, "", "", 0, "0", 0, map[], [], "", [], "", [], 255, "")
  const NEW_SEARCH := Search("", "", "", "", "", -1, -1, -1, -1, 0, None)

  function NewExit(direction: int): Exit {
    Exit(direction, "", "", "", -1, -1)
  }

  // ---------- Printing ----------

  function ExitTexts(e: Exit): seq<Piece> {
    [TildeStr(e.description), TildeStr(e.keywords)]
  }

  function ExitNumbers(e: Exit): Piece {
    Line(Joined([e.exitInfo, Int(e.key), Int(e.toRoom)]))
  }

  function ExitPieces(e: Exit): seq<Piece> {
    [Line("D" + Int(e.direction))] + ExitTexts(e) + [ExitNumbers(e)]
  }

  function SearchNumbers(z: Search): seq<string> {
    [Int(z.command), Int(z.arg0), Int(z.arg1), Int(z.arg2), Int(z.flags)]
  }

  function FailureText(z: Search): string {
    if z.failure.Some? then " " + z.failure.value else ""
  }

  function SearchTexts(z: Search): seq<Piece> {
    [TildeStr(z.triggers), TildeStr(z.keywords), TildeStr(z.toVict), TildeStr(z.toRoom)]
  }

  function SearchEnd(z: Search): seq<Piece> {
    [TildeStr(z.toRemote), Line(Joined(SearchNumbers(z)) + FailureText(z))]
  }

  function SearchPieces(z: Search): seq<Piece> {
    [Line("Z")] + SearchTexts(z) + SearchEnd(z)
  }

  function FlowPieces(f: Flow): seq<Piece> {
    [Line("F"), Line(Joined([Int(f.direction), Int(f.speed), Int(f.kind)]))]
  }

  predicate IsLeast(k: int, keys: set<int>) {
    k in keys && forall j | j in keys :: k <= j
  }

  lemma {:induction false} LeastExists(keys: set<int>)
    requires exists k :: k in keys
    ensures exists k :: IsLeast(k, keys)
  {
    var k :| k in keys;
    var others := keys - {k};
    assert forall j | j in keys :: j == k || j in others;
    if exists j :: j in others {
      LeastExists(others);
      var m :| IsLeast(m, others);
      var least := if m < k then m else k;
      assert IsLeast(least, keys);
    } else {
      assert IsLeast(k, keys);
    }
  }

  function Least(keys: set<int>): (k: int)
    requires exists k :: k in keys
    ensures IsLeast(k, keys)
  {
    LeastExists(keys);
    var k :| IsLeast(k, keys);
    k
  }

  function SortedKeys(keys: set<int>): (r: seq<int>)
    ensures forall i | 0 <= i < |r| :: r[i] in keys
  {
    if exists k :: k in keys then
      var k := Least(keys);
      [k] + SortedKeys(keys - {k})
    else []
  }

  function ExitsAt(directions: map<int, Exit>, keys: seq<int>): seq<Exit>
    requires forall i | 0 <= i < |keys| :: keys[i] in directions
  {
    if keys == [] then [] else [directions[keys[0]]] + ExitsAt(directions, keys[1..])
  }

  function SortedExits(directions: map<int, Exit>): seq<Exit> {
    ExitsAt(directions, SortedKeys(directions.Keys))
  }

  function HeaderPieces(r: Room): seq<Piece> {
    [Line("#" + Int(r.idnum)), TildeStr(r.title), TildeStr(r.description),
     Line(Joined([Int(r.zone), r.flags, Int(r.sector)]))]
  }

  /** Everything before the closing line, with the exits in the order given. */
  function BodyPieces(r: Room, exits: seq<Exit>): seq<Piece> {
    HeaderPieces(r)
    + AllPieces(exits, ExitPieces)
    + AllPieces(r.extradescs, ExtradescPieces)
    + Section("R", r.prog)
    + AllPieces(r.searches, SearchPieces)
    + Section("L", r.sound)
    + AllPieces(r.flows, FlowPieces)
    + [Line("O " + Int(r.occupancy))]
    + Section("P", r.specialParam)
  }

  function RoomText(r: Room): string {
    Render(BodyPieces(r, SortedExits(r.directions)) + [Line("S")])
  }

  // ---------- Reading ----------

  datatype State =
    | RoomNum | Title | Description | Flags | Optional
    | DirDesc | DirKeywords | DirFlags
    | ExKeywords | ExDescrip | Sound | FlowLine
    | SearchTriggers | SearchKeywords | SearchVict | SearchRoom | SearchRemote | SearchFlags
    | Prog | SpecialParam

  predicate ReadsLine(s: State) {
    s.RoomNum? || s.Flags? || s.Optional? || s.DirFlags? || s.FlowLine? || s.SearchFlags?
  }

  datatype Machine = Machine(state: State, room: Room, direction: int, extradesc: Extradesc, search: Search)

  const START := Machine(RoomNum, NEW_ROOM, 0, Extradesc("", ""), NEW_SEARCH)

  predicate InExit(m: Machine) {
    m.state.DirDesc? || m.state.DirKeywords? || m.state.DirFlags?
  }

  function CurrentExit(m: Machine): Exit {
    if m.direction in m.room.directions then m.room.directions[m.direction] else NewExit(m.direction)
  }

  function WithExit(m: Machine, e: Exit, s: State): Machine {
    m.(state := s, room := m.room.(directions := m.room.directions[m.direction := e]))
  }

  /** The machine after a tilde string. */
  function AfterTilde(m: Machine, t: string): Machine
    requires !ReadsLine(m.state)
  {
    match m.state
    case Title => m.(state := Description, room := m.room.(title := t))
    case Description => m.(state := Flags, room := m.room.(description := t))
    case DirDesc => WithExit(m, CurrentExit(m).(description := t), DirKeywords)
    case DirKeywords => WithExit(m, CurrentExit(m).(keywords := t), DirFlags)
    case ExKeywords => m.(state := ExDescrip, extradesc := Extradesc(t, ""))
    case ExDescrip =>
      var x := m.extradesc.(description := t);
      m.(state := Optional, extradesc := x, room := m.room.(extradescs := m.room.extradescs + [x]))
    case Sound => m.(state := Optional, room := m.room.(sound := t))
    case SearchTriggers => m.(state := SearchKeywords, search := NEW_SEARCH.(triggers := t))
    case SearchKeywords => m.(state := SearchVict, search := m.search.(keywords := t))
    case SearchVict => m.(state := SearchRoom, search := m.search.(toVict := t))
    case SearchRoom => m.(state := SearchRemote, search := m.search.(toRoom := t))
    case SearchRemote => m.(state := SearchFlags, search := m.search.(toRemote := t))
    case Prog => m.(state := Optional, room := m.room.(prog := t))
    case SpecialParam => m.(state := Optional, room := m.room.(specialParam := t))
  }

  datatype LineStep = Go(m: Machine) | Done | End | Fail

  /** The room number line: '#' or '$' and perhaps digits. */
  function AfterRoomNum(m: Machine, line: string): LineStep {
    if line == "" || (line[0] != '#' && line[0] != '$') then Fail
    else if line[0] == '$' then End
    else Go(m.(state := Title, room := m.room.(idnum := NatOf(line[1..][..Span(Digit, line[1..])]))))
  }

  function WithFlags(m: Machine, f: Fields): Machine
    requires |f.values| == 3
  {
    m.(state := Optional,
       room := m.room.(zone := IntOf(f.values[0]), flags := f.values[1], sector := IntOf(f.values[2])))
  }

  function AfterFlags(m: Machine, line: string): LineStep {
    match MatchFields([Digit, Word, Digit], false, line)
    case None => Fail
    case Some(f) => Go(WithFlags(m, f))
  }

  /** The line that opens an optional section or closes the record. */
  function AfterOptional(m: Machine, line: string): LineStep {
    if line == "" then Fail
    else if line[0] == 'S' then Done
    else if line[0] == 'O' then
      match if |line| >= 2 && line[1] == ' ' then MatchFields([Digit], false, line[2..]) else None
      case None => Fail
      case Some(f) => Go(m.(room := m.room.(occupancy := IntOf(f.values[0]))))
    else if line[0] == 'D' then
      match MatchFields([Digit], false, line[1..])
      case None => Fail
      case Some(f) =>
        var d := IntOf(f.values[0]);
        Go(WithExit(m.(direction := d), NewExit(d), DirDesc))
    else if line[0] == 'E' then Go(m.(state := ExKeywords))
    else if line[0] == 'L' then Go(m.(state := Sound))
    else if line[0] == 'F' then Go(m.(state := FlowLine))
    else if line[0] == 'Z' then Go(m.(state := SearchTriggers))
    else if line[0] == 'R' then Go(m.(state := Prog))
    else if line[0] == 'P' then Go(m.(state := SpecialParam))
    else Fail
  }

  function WithDirFlags(m: Machine, f: Fields): Machine
    requires |f.values| == 3
  {
    WithExit(m, CurrentExit(m).(exitInfo := f.values[0], key := IntOf(f.values[1]), toRoom := IntOf(f.values[2])),
             Optional)
  }

  function AfterDirFlags(m: Machine, line: string): LineStep {
    match MatchFields([Word, Signed, Signed], true, line)
    case None => Fail
    case Some(f) => Go(WithDirFlags(m, f))
  }

  function AfterFlow(m: Machine, line: string): LineStep {
    match FindFields([Signed, Signed, Signed], line)
    case None => Fail
    case Some(f) =>
      var flow := Flow(IntOf(f.values[0]), IntOf(f.values[1]), IntOf(f.values[2]));
      Go(m.(state := Optional, room := m.room.(flows := m.room.flows + [flow])))
  }

  function WithSearchFlags(m: Machine, f: Fields): Machine
    requires |f.values| == 5
  {
    var last := Trailing(Signed, f.rest);
    var z := m.search.(command := IntOf(f.values[0]), arg0 := IntOf(f.values[1]), arg1 := IntOf(f.values[2]),
                       arg2 := IntOf(f.values[3]), flags := IntOf(f.values[4]),
                       failure := if last.Some? then last else m.search.failure);
    m.(state := Optional, search := z, room := m.room.(searches := m.room.searches + [z]))
  }

  function AfterSearchFlags(m: Machine, line: string): LineStep {
    match FindFields([Signed, Signed, Signed, Signed, Signed], line)
    case None => Fail
    case Some(f) => Go(WithSearchFlags(m, f))
  }

  function AfterLine(m: Machine, line: string): LineStep
    requires ReadsLine(m.state)
  {
    match m.state
    case RoomNum => AfterRoomNum(m, line)
    case Flags => AfterFlags(m, line)
    case Optional => AfterOptional(m, line)
    case DirFlags => AfterDirFlags(m, line)
    case FlowLine => AfterFlow(m, line)
    case SearchFlags => AfterSearchFlags(m, line)
  }

  /** How a call of load ends. At the end of the text the source returns its input object, which
      counts as true, and the room is whatever had been filled in. */
  datatype Outcome =
    | Loaded(room: Room, rest: string)
    | EndMark(rest: string)
    | Truncated(last: Machine)
    | Malformed

  function Run(m: Machine, s: string): (o: Outcome)
    ensures s != "" && o.Loaded? ==> |o.rest| < |s|
    ensures s != "" && o.EndMark? ==> |o.rest| < |s|
    ensures s == "" ==> o == Truncated(m)
    decreases |s|
  {
    if s == "" then Truncated(m)
    else
      var next := GetLine(s);
      if !ReadsLine(m.state) then
        var t := ReadTilde(next.line, next.rest);
        Run(AfterTilde(m, t.line), t.rest)
      else
        match AfterLine(m, next.line)
        case Go(m') => Run(m', next.rest)
        case Done => Loaded(m.room, next.rest)
        case End => EndMark(next.rest)
        case Fail => Malformed
  }

  function Load(s: string): Outcome {
    Run(START, s)
  }

  // ---------- Whole files ----------

  function RoomTexts(rooms: seq<Room>): string {
    if rooms == [] then "" else RoomText(rooms[0]) + RoomTexts(rooms[1..])
  }

  function FileText(rooms: seq<Room>): string {
    RoomTexts(rooms) + "$~\n"
  }

  /** The rooms of a file; a file is cut when it ends inside a record, the last machine being how far that
      record has been read. */
  datatype FileResult = Complete(rooms: seq<Room>) | Cut(rooms: seq<Room>, last: Machine) | Bad {
    function Prepend(r: Room): FileResult {
      match this
      case Complete(rs) => Complete([r] + rs)
      case Cut(rs, last) => Cut([r] + rs, last)
      case Bad => Bad
    }
  }

  /** Records are loaded until the text is used up; the end mark adds no room. */
  function ReadFile(s: string): FileResult
    decreases |s|
  {
    if s == "" then Complete([])
    else
      match Load(s)
      case Loaded(r, rest) => ReadFile(rest).Prepend(r)
      case EndMark(rest) => ReadFile(rest)
      case Truncated(last) => Cut([], last)
      case Malformed => Bad
  }
}
