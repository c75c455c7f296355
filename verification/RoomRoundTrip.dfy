/** What a printed room reads back as, and what a reader can build. */
module RoomRoundTrip {
  import opened Text
  import opened Pieces
  import opened Extradescs
  import opened Rooms

  // ---------- From text to pieces ----------

  /** The machine after one printed piece, if it accepts it and goes on. */
  function TakePiece(m: Machine, p: Piece): Option<Machine> {
    match p
    case Line(s) =>
      if ReadsLine(m.state) && '\n' !in s && !EndsInCr(s) && AfterLine(m, s).Go? then Some(AfterLine(m, s).m) else None
    case TildeStr(t) =>
      if !ReadsLine(m.state) && '~' !in t then Some(AfterTilde(m, t)) else None
  }

  function TakePieces(m: Machine, ps: seq<Piece>): Option<Machine> {
    Chain(TakePiece, m, ps)
  }

  /** A printed text is taken with its line ends normalised. */
  lemma PieceRun(m: Machine, p: Piece, rest: string)
    requires TakePiece(m, UnixPiece(p)).Some?
    ensures Run(m, PieceText(p) + rest) == Run(TakePiece(m, UnixPiece(p)).value, rest)
  {
    match p
    case Line(s) =>
      GetPrintedLine(s, rest);
      assert PieceText(p) + rest == s + "\n" + rest;
    case TildeStr(t) =>
      assert PieceText(p) + rest == t + "~\n" + rest;
      NoTildeInUnix(t);
      ReadPrintedTilde(t, rest);
  }

  lemma {:induction false} PiecesRun(m: Machine, ps: seq<Piece>, rest: string)
    requires TakePieces(m, UnixPieces(ps)).Some?
    ensures Run(m, Render(ps) + rest) == Run(TakePieces(m, UnixPieces(ps)).value, rest)
    decreases |ps|
  {
    if ps == [] {
      assert Render(ps) + rest == rest;
    } else {
      var us := UnixPieces(ps);
      assert us[0] == UnixPiece(ps[0]) && us[1..] == UnixPieces(ps[1..]);
      PieceRun(m, ps[0], Render(ps[1..]) + rest);
      Assoc(PieceText(ps[0]), Render(ps[1..]), rest);
      PiecesRun(TakePiece(m, us[0]).value, ps[1..], rest);
    }
  }

  // ---------- The sections of a room ----------

  predicate ExitOk(strict: bool, e: Exit) {
    && e.direction >= 0
    && TextOk(strict, e.description) && TextOk(strict, e.keywords)
    && e.exitInfo != "" && Word.All(e.exitInfo)
  }

  predicate SearchTextsOk(strict: bool, z: Search) {
    && TextOk(strict, z.triggers) && TextOk(strict, z.keywords) && TextOk(strict, z.toVict)
    && TextOk(strict, z.toRoom) && TextOk(strict, z.toRemote)
  }

  predicate SearchOk(strict: bool, z: Search) {
    SearchTextsOk(strict, z) && (z.failure.Some? ==> z.failure.value != "" && Signed.All(z.failure.value))
  }

  predicate TextsOk(strict: bool, r: Room) {
    && TextOk(strict, r.title) && TextOk(strict, r.description) && TextOk(strict, r.prog)
    && TextOk(strict, r.sound) && TextOk(strict, r.specialParam)
  }

  predicate ListsOk(strict: bool, r: Room) {
    && (forall i | 0 <= i < |r.extradescs| :: ExtradescOk(strict, r.extradescs[i]))
    && (forall i | 0 <= i < |r.searches| :: SearchOk(strict, r.searches[i]))
  }

  predicate RoomOk(strict: bool, r: Room) {
    && TextsOk(strict, r)
    && r.idnum >= 0 && r.zone >= 0 && r.sector >= 0 && r.occupancy >= 0
    && r.flags != "" && Word.All(r.flags)
    && (forall d | d in r.directions :: r.directions[d].direction == d && ExitOk(strict, r.directions[d]))
    && ListsOk(strict, r)
  }

  /** The rooms that the format can represent. */
  predicate WellFormed(r: Room) {
    RoomOk(true, r)
  }

  /** A machine between sections, holding room r. */
  predicate Between(m: Machine, r: Room) {
    m.state == Optional && m.room == r
  }

  /** The state that a section letter opens. */
  function Opened(letter: string): Option<State> {
    if letter == "E" then Some(ExKeywords) else if letter == "L" then Some(State.Sound)
    else if letter == "F" then Some(FlowLine) else if letter == "Z" then Some(SearchTriggers)
    else if letter == "R" then Some(Prog) else if letter == "P" then Some(SpecialParam) else None
  }

  /** A line that the machine goes on from is taken as a piece. */
  lemma LineTaken(m: Machine, line: string, m': Machine)
    requires ReadsLine(m.state) && '\n' !in line && !EndsInCr(line) && AfterLine(m, line) == Go(m')
    ensures TakePiece(m, Line(line)) == Some(m')
  {
  }

  lemma OpenRead(m: Machine, letter: string)
    requires m.state == Optional && Opened(letter).Some?
    ensures TakePiece(m, Line(letter)) == Some(m.(state := Opened(letter).value))
  {
  }

  lemma TildeRead(m: Machine, t: string)
    requires !ReadsLine(m.state) && '~' !in t
    ensures TakePiece(m, TildeStr(t)) == Some(AfterTilde(m, t))
  {
  }

  lemma RoomNumRead(m: Machine, n: int)
    requires n >= 0 && m.state == RoomNum
    ensures TakePiece(m, Line("#" + Int(n))) == Some(m.(state := Title, room := m.room.(idnum := n)))
  {
    var line := "#" + Int(n);
    IntField(n);
    OneNumber(n);
    assert line[1..] == Int(n);
    SpanUnique(Digit, Int(n), |Int(n)|);
    assert Int(n)[..|Int(n)|] == Int(n);
  }

  lemma FlagsRead(m: Machine, zone: int, flags: string, sector: int)
    requires m.state == Flags && zone >= 0 && sector >= 0 && flags != "" && Word.All(flags)
    ensures TakePiece(m, Line(Joined([Int(zone), flags, Int(sector)])))
         == Some(m.(state := Optional, room := m.room.(zone := zone, flags := flags, sector := sector)))
  {
    var values := [Int(zone), flags, Int(sector)];
    FlagsMatch(zone, flags, sector);
    IntField(zone);
    IntField(sector);
    LineTaken(m, Joined(values), WithFlags(m, Fields(values, "")));
  }

  lemma FlagsMatch(zone: int, flags: string, sector: int)
    requires zone >= 0 && sector >= 0 && flags != "" && Word.All(flags)
    ensures var values := [Int(zone), flags, Int(sector)];
      && MatchFields([Digit, Word, Digit], false, Joined(values)) == Some(Fields(values, ""))
      && '\n' !in Joined(values) && !EndsInCr(Joined(values))
  {
    var values := [Int(zone), flags, Int(sector)];
    IntField(zone);
    IntField(sector);
    MatchJoined([Digit, Word, Digit], false, values, "");
    JoinedPlain([Digit, Word, Digit], values);
    assert Joined(values) + "" == Joined(values);
  }

  lemma HeaderRead(r: Room)
    requires TextsOk(false, r) && r.idnum >= 0 && r.zone >= 0 && r.sector >= 0 && r.flags != "" && Word.All(r.flags)
    ensures var m := TakePieces(START, HeaderPieces(r));
      m.Some? && Between(m.value, NEW_ROOM.(idnum := r.idnum, title := r.title, description := r.description,
                                           zone := r.zone, flags := r.flags, sector := r.sector))
  {
    RoomNumRead(START, r.idnum);
    var m1 := START.(state := Title, room := NEW_ROOM.(idnum := r.idnum));
    var m2 := AfterTilde(m1, r.title);
    var m3 := AfterTilde(m2, r.description);
    FlagsRead(m3, r.zone, r.flags, r.sector);
    var ps := HeaderPieces(r);
    Chain4(TakePiece, START, ps[0], m1, ps[1], m2, ps[2], m3, ps[3]);
  }

  /** The machines on the way through an exit. */
  function ExitMachine(m: Machine, e: Exit, s: State): Machine {
    WithExit(m.(direction := e.direction), e, s)
  }

  lemma ExitMachineTwice(m: Machine, x: Exit, s: State, e: Exit, s': State)
    requires x.direction == e.direction
    ensures ExitMachine(ExitMachine(m, x, s), e, s') == ExitMachine(m, e, s')
  {
    assert m.room.directions[e.direction := x][e.direction := e] == m.room.directions[e.direction := e];
  }

  /** e before its number line has been read. */
  function Unnumbered(e: Exit): Exit {
    e.(exitInfo := "", key := -1, toRoom := -1)
  }

  lemma ExitTextsRead(m: Machine, e: Exit)
    requires ExitOk(false, e)
    ensures TakePieces(ExitMachine(m, NewExit(e.direction), DirDesc), ExitTexts(e))
         == Some(ExitMachine(m, Unnumbered(e), DirFlags))
  {
    var x0 := NewExit(e.direction);
    var x1 := x0.(description := e.description);
    var m0, m1 := ExitMachine(m, x0, DirDesc), ExitMachine(m, x1, DirKeywords);
    ExitMachineTwice(m, x0, DirDesc, x1, DirKeywords);
    ExitMachineTwice(m, x1, DirKeywords, Unnumbered(e), DirFlags);
    TildeRead(m0, e.description);
    TildeRead(m1, e.keywords);
    Chain2(TakePiece, m0, TildeStr(e.description), m1, TildeStr(e.keywords));
  }

  lemma ExitRead(m: Machine, e: Exit)
    requires m.state == Optional && ExitOk(false, e)
    ensures TakePieces(m, ExitPieces(e)) == Some(ExitMachine(m, e, Optional))
  {
    DirRead(m, e.direction);
    ExitTextsRead(m, e);
    DirFlagsRead(m, e);
    Extend3(TakePiece, m, [Line("D" + Int(e.direction))], ExitMachine(m, NewExit(e.direction), DirDesc), ExitTexts(e),
            ExitMachine(m, Unnumbered(e), DirFlags), [ExitNumbers(e)]);
  }

  lemma DirRead(m: Machine, d: int)
    requires m.state == Optional && d >= 0
    ensures TakePieces(m, [Line("D" + Int(d))]) == Some(ExitMachine(m, NewExit(d), DirDesc))
  {
    OneNumber(d);
    assert ("D" + Int(d))[1..] == Int(d);
    Chain1(TakePiece, m, Line("D" + Int(d)));
  }

  lemma DirNumbersRead(e: Exit)
    requires ExitOk(false, e)
    ensures var values := [e.exitInfo, Int(e.key), Int(e.toRoom)];
      && MatchFields([Word, Signed, Signed], true, Joined(values)) == Some(Fields(values, ""))
      && '\n' !in Joined(values) && '\r' !in Joined(values)
  {
    var values := [e.exitInfo, Int(e.key), Int(e.toRoom)];
    IntField(e.key);
    IntField(e.toRoom);
    MatchJoined([Word, Signed, Signed], true, values, "");
    JoinedPlain([Word, Signed, Signed], values);
    assert Joined(values) + "" == Joined(values);
  }

  lemma DirFlagsTaken(m: Machine, e: Exit)
    requires ExitOk(false, e) && m.state == DirFlags && m.direction == e.direction && CurrentExit(m) == Unnumbered(e)
    ensures TakePiece(m, ExitNumbers(e)) == Some(WithExit(m, e, Optional))
  {
    DirNumbersRead(e);
    IntField(e.key);
    IntField(e.toRoom);
  }

  lemma DirFlagsRead(m: Machine, e: Exit)
    requires ExitOk(false, e)
    ensures TakePieces(ExitMachine(m, Unnumbered(e), DirFlags), [ExitNumbers(e)]) == Some(ExitMachine(m, e, Optional))
  {
    var m' := ExitMachine(m, Unnumbered(e), DirFlags);
    DirFlagsTaken(m', e);
    ExitMachineTwice(m, Unnumbered(e), DirFlags, e, Optional);
    Chain1(TakePiece, m', ExitNumbers(e));
  }

  lemma ExtradescRead(m: Machine, x: Extradesc)
    requires m.state == Optional && ExtradescOk(false, x)
    ensures var m' := TakePieces(m, ExtradescPieces(x));
      m'.Some? && Between(m'.value, m.room.(extradescs := m.room.extradescs + [x]))
  {
    OpenRead(m, "E");
    Chain1(TakePiece, m, Line("E"));
    var m1 := m.(state := ExKeywords);
    TildeRead(m1, x.keywords);
    var m2 := AfterTilde(m1, x.keywords);
    TildeRead(m2, x.description);
    var texts := [TildeStr(x.keywords), TildeStr(x.description)];
    Chain2(TakePiece, m1, texts[0], m2, texts[1]);
    Extend(TakePiece, m, [Line("E")], m1, texts);
  }

  lemma FlowNumbersRead(f: Flow)
    ensures var values := [Int(f.direction), Int(f.speed), Int(f.kind)];
      && FindFields([Signed, Signed, Signed], Joined(values)) == Some(Fields(values, ""))
      && '\n' !in Joined(values) && '\r' !in Joined(values)
  {
    var values := [Int(f.direction), Int(f.speed), Int(f.kind)];
    IntField(f.direction);
    IntField(f.speed);
    IntField(f.kind);
    MatchJoined([Signed, Signed, Signed], false, values, "");
    JoinedPlain([Signed, Signed, Signed], values);
    assert Joined(values) + "" == Joined(values);
  }

  lemma FlowLineRead(m: Machine, f: Flow)
    requires m.state == FlowLine
    ensures TakePiece(m, Line(Joined([Int(f.direction), Int(f.speed), Int(f.kind)])))
         == Some(m.(state := Optional, room := m.room.(flows := m.room.flows + [f])))
  {
    FlowNumbersRead(f);
    IntField(f.direction);
    IntField(f.speed);
    IntField(f.kind);
    LineTaken(m, Joined([Int(f.direction), Int(f.speed), Int(f.kind)]),
              m.(state := Optional, room := m.room.(flows := m.room.flows + [f])));
  }

  lemma FlowRead(m: Machine, f: Flow)
    requires m.state == Optional
    ensures var m' := TakePieces(m, FlowPieces(f));
      m'.Some? && Between(m'.value, m.room.(flows := m.room.flows + [f]))
  {
    OpenRead(m, "F");
    var m1 := m.(state := FlowLine);
    FlowLineRead(m1, f);
    Chain2(TakePiece, m, Line("F"), m1, Line(Joined([Int(f.direction), Int(f.speed), Int(f.kind)])));
  }

  lemma SearchNumbersRead(z: Search)
    requires SearchOk(false, z)
    ensures FindFields([Signed, Signed, Signed, Signed, Signed], Joined(SearchNumbers(z)) + FailureText(z))
         == Some(Fields(SearchNumbers(z), FailureText(z)))
    ensures '\n' !in Joined(SearchNumbers(z)) && '\r' !in Joined(SearchNumbers(z))
  {
    var classes := [Signed, Signed, Signed, Signed, Signed];
    IntField(z.command);
    IntField(z.arg0);
    IntField(z.arg1);
    IntField(z.arg2);
    IntField(z.flags);
    MatchJoined(classes, false, SearchNumbers(z), FailureText(z));
    JoinedPlain(classes, SearchNumbers(z));
  }

  lemma SearchFlagsRead(m: Machine, z: Search)
    requires m.state == SearchFlags && SearchOk(false, z)
    requires m.search == SearchStarted(z).(toRemote := z.toRemote)
    ensures TakePiece(m, Line(Joined(SearchNumbers(z)) + FailureText(z)))
         == Some(m.(state := Optional, search := z, room := m.room.(searches := m.room.searches + [z])))
  {
    SearchNumbersRead(z);
    SearchFlagsStored(m, z);
    SearchLinePlain(z);
    LineTaken(m, Joined(SearchNumbers(z)) + FailureText(z),
              WithSearchFlags(m, Fields(SearchNumbers(z), FailureText(z))));
  }

  lemma SearchFlagsStored(m: Machine, z: Search)
    requires SearchOk(false, z) && m.search == SearchStarted(z).(toRemote := z.toRemote)
    ensures WithSearchFlags(m, Fields(SearchNumbers(z), FailureText(z)))
         == m.(state := Optional, search := z, room := m.room.(searches := m.room.searches + [z]))
  {
    IntField(z.command);
    IntField(z.arg0);
    IntField(z.arg1);
    IntField(z.arg2);
    IntField(z.flags);
    TrailingRead(Signed, z.failure);
  }

  lemma SearchLinePlain(z: Search)
    requires SearchOk(false, z)
    ensures var line := Joined(SearchNumbers(z)) + FailureText(z); '\n' !in line && !EndsInCr(line)
  {
    SearchNumbersRead(z);
    TrailingRead(Signed, z.failure);
    LastOf(Joined(SearchNumbers(z)), FailureText(z));
  }

  lemma LastOf(a: string, b: string)
    requires '\r' !in a && !EndsInCr(b)
    ensures !EndsInCr(a + b)
  {
  }

  /** z with the texts that come before the remote one, and nothing else. */
  function SearchStarted(z: Search): Search {
    NEW_SEARCH.(triggers := z.triggers, keywords := z.keywords, toVict := z.toVict, toRoom := z.toRoom)
  }

  lemma SearchTextsRead(m: Machine, z: Search)
    requires m.state == SearchTriggers && SearchTextsOk(false, z)
    ensures TakePieces(m, SearchTexts(z)) == Some(m.(state := SearchRemote, search := SearchStarted(z)))
  {
    var m2 := AfterTilde(m, z.triggers);
    var m3 := AfterTilde(m2, z.keywords);
    var m4 := AfterTilde(m3, z.toVict);
    TildeRead(m, z.triggers);
    TildeRead(m2, z.keywords);
    TildeRead(m3, z.toVict);
    TildeRead(m4, z.toRoom);
    Chain4(TakePiece, m, TildeStr(z.triggers), m2, TildeStr(z.keywords), m3, TildeStr(z.toVict),
           m4, TildeStr(z.toRoom));
  }

  lemma SearchEndRead(m: Machine, z: Search)
    requires m.state == SearchRemote && SearchOk(false, z) && m.search == SearchStarted(z)
    ensures TakePieces(m, SearchEnd(z))
         == Some(m.(state := Optional, search := z, room := m.room.(searches := m.room.searches + [z])))
  {
    TildeRead(m, z.toRemote);
    var m' := AfterTilde(m, z.toRemote);
    SearchFlagsRead(m', z);
    Chain2(TakePiece, m, TildeStr(z.toRemote), m', Line(Joined(SearchNumbers(z)) + FailureText(z)));
  }

  lemma SearchRead(m: Machine, z: Search)
    requires m.state == Optional && SearchOk(false, z)
    ensures var m' := TakePieces(m, SearchPieces(z));
      m'.Some? && Between(m'.value, m.room.(searches := m.room.searches + [z]))
  {
    OpenRead(m, "Z");
    Chain1(TakePiece, m, Line("Z"));
    var m1 := m.(state := SearchTriggers);
    SearchTextsRead(m1, z);
    var m5 := m1.(state := SearchRemote, search := SearchStarted(z));
    SearchEndRead(m5, z);
    Extend3(TakePiece, m, [Line("Z")], m1, SearchTexts(z), m5, SearchEnd(z));
  }

  lemma OccupancyRead(m: Machine, n: int)
    requires m.state == Optional && n >= 0
    ensures TakePieces(m, [Line("O " + Int(n))]) == Some(m.(room := m.room.(occupancy := n)))
  {
    OneNumber(n);
    assert ("O " + Int(n))[2..] == Int(n);
    Chain1(TakePiece, m, Line("O " + Int(n)));
  }

  // ---------- Lists of sections ----------

  function AddExits(directions: map<int, Exit>, exits: seq<Exit>): map<int, Exit>
    decreases |exits|
  {
    if exits == [] then directions else AddExits(directions[exits[0].direction := exits[0]], exits[1..])
  }

  lemma {:induction false} ExitsRead(m: Machine, exits: seq<Exit>)
    requires m.state == Optional && forall i | 0 <= i < |exits| :: ExitOk(false, exits[i])
    ensures var m' := TakePieces(m, AllPieces(exits, ExitPieces));
      m'.Some? && Between(m'.value, m.room.(directions := AddExits(m.room.directions, exits)))
    decreases |exits|
  {
    if exits != [] {
      ExitRead(m, exits[0]);
      var m1 := TakePieces(m, ExitPieces(exits[0])).value;
      ExitsRead(m1, exits[1..]);
      Extend(TakePiece, m, ExitPieces(exits[0]), m1, AllPieces(exits[1..], ExitPieces));
    }
  }

  lemma {:induction false} ExtradescsRead(m: Machine, xs: seq<Extradesc>)
    requires m.state == Optional && forall i | 0 <= i < |xs| :: ExtradescOk(false, xs[i])
    ensures var m' := TakePieces(m, AllPieces(xs, ExtradescPieces));
      m'.Some? && Between(m'.value, m.room.(extradescs := m.room.extradescs + xs))
    decreases |xs|
  {
    if xs == [] {
      assert m.room.extradescs + xs == m.room.extradescs;
    } else {
      ExtradescRead(m, xs[0]);
      var m1 := TakePieces(m, ExtradescPieces(xs[0])).value;
      ExtradescsRead(m1, xs[1..]);
      Extend(TakePiece, m, ExtradescPieces(xs[0]), m1, AllPieces(xs[1..], ExtradescPieces));
      Shift(m.room.extradescs, xs);
    }
  }

  lemma {:induction false} SearchesRead(m: Machine, zs: seq<Search>)
    requires m.state == Optional && forall i | 0 <= i < |zs| :: SearchOk(false, zs[i])
    ensures var m' := TakePieces(m, AllPieces(zs, SearchPieces));
      m'.Some? && Between(m'.value, m.room.(searches := m.room.searches + zs))
    decreases |zs|
  {
    if zs == [] {
      assert m.room.searches + zs == m.room.searches;
    } else {
      SearchRead(m, zs[0]);
      var m1 := TakePieces(m, SearchPieces(zs[0])).value;
      SearchesRead(m1, zs[1..]);
      Extend(TakePiece, m, SearchPieces(zs[0]), m1, AllPieces(zs[1..], SearchPieces));
      Shift(m.room.searches, zs);
    }
  }

  lemma {:induction false} FlowsRead(m: Machine, fs: seq<Flow>)
    requires m.state == Optional
    ensures var m' := TakePieces(m, AllPieces(fs, FlowPieces));
      m'.Some? && Between(m'.value, m.room.(flows := m.room.flows + fs))
    decreases |fs|
  {
    if fs == [] {
      assert m.room.flows + fs == m.room.flows;
    } else {
      FlowRead(m, fs[0]);
      var m1 := TakePieces(m, FlowPieces(fs[0])).value;
      FlowsRead(m1, fs[1..]);
      Extend(TakePiece, m, FlowPieces(fs[0]), m1, AllPieces(fs[1..], FlowPieces));
      Shift(m.room.flows, fs);
    }
  }

  function WithSection(r: Room, letter: string, t: string): Room {
    if letter == "R" then r.(prog := t) else if letter == "L" then r.(sound := t) else r.(specialParam := t)
  }

  /** An optional text section sets its field; when it is not printed the field keeps the empty text
      that a new room starts with. */
  lemma SectionRead(m: Machine, letter: string, t: string)
    requires m.state == Optional && '~' !in t && letter in ["R", "L", "P"] && m.room == WithSection(m.room, letter, "")
    ensures var m' := TakePieces(m, Section(letter, t));
      m'.Some? && Between(m'.value, WithSection(m.room, letter, t))
  {
    if t != "" {
      OpenRead(m, letter);
      var m1 := m.(state := Opened(letter).value);
      TildeRead(m1, t);
      Chain2(TakePiece, m, Line(letter), m1, TildeStr(t));
    }
  }

  function SetOf(keys: seq<int>): set<int> {
    if keys == [] then {} else {keys[0]} + SetOf(keys[1..])
  }

  /** Sorting the keys of a table loses none and repeats none. */
  lemma {:induction false} SortedKeysAll(keys: set<int>)
    ensures SetOf(SortedKeys(keys)) == keys
    ensures forall i, j | 0 <= i < j < |SortedKeys(keys)| :: SortedKeys(keys)[i] < SortedKeys(keys)[j]
    decreases keys
  {
    if exists k :: k in keys {
      var k := Least(keys);
      var others := keys - {k};
      var sorted := SortedKeys(others);
      SortedKeysAll(others);
      assert SortedKeys(keys) == [k] + sorted;
      assert ([k] + sorted)[1..] == sorted;
      assert {k} + others == keys;
    }
  }

  /** Reading exits enters each under its own direction: the table stays a part of directions. */
  lemma {:induction false} AddExitsOf(part: map<int, Exit>, directions: map<int, Exit>, keys: seq<int>)
    requires directions + part == directions
    requires forall d | d in directions :: directions[d].direction == d
    requires forall i | 0 <= i < |keys| :: keys[i] in directions
    ensures var r := AddExits(part, ExitsAt(directions, keys));
      directions + r == directions && r.Keys == part.Keys + SetOf(keys)
    decreases |keys|
  {
    if keys != [] {
      var exits, d := ExitsAt(directions, keys), keys[0];
      assert exits[0] == directions[d] && exits[1..] == ExitsAt(directions, keys[1..]);
      var part' := part[d := directions[d]];
      assert directions + part' == directions;
      AddExitsOf(part', directions, keys[1..]);
      assert part'.Keys + SetOf(keys[1..]) == part.Keys + SetOf(keys);
    }
  }

  lemma WholeTable(part: map<int, Exit>, directions: map<int, Exit>)
    requires directions + part == directions && part.Keys == directions.Keys
    ensures part == directions
  {
    assert directions + part == part;
  }

  /** Reading the exits of a room in the order of their directions restores the table of exits. */
  lemma ExitsRestored(directions: map<int, Exit>)
    requires forall d | d in directions :: directions[d].direction == d
    ensures AddExits(map[], SortedExits(directions)) == directions
  {
    AddExitsOf(map[], directions, SortedKeys(directions.Keys));
    SortedKeysAll(directions.Keys);
    WholeTable(AddExits(map[], SortedExits(directions)), directions);
  }

  lemma ExitsAtOk(strict: bool, directions: map<int, Exit>, keys: seq<int>)
    requires forall d | d in directions :: ExitOk(strict, directions[d])
    requires forall i | 0 <= i < |keys| :: keys[i] in directions
    ensures var exits := ExitsAt(directions, keys);
      forall i | 0 <= i < |exits| :: ExitOk(strict, exits[i])
  {
    if keys != [] {
      ExitsAtOk(strict, directions, keys[1..]);
    }
  }

  lemma SortedExitsOk(strict: bool, directions: map<int, Exit>)
    requires forall d | d in directions :: ExitOk(strict, directions[d])
    ensures var exits := SortedExits(directions);
      forall i | 0 <= i < |exits| :: ExitOk(strict, exits[i])
  {
    var keys := SortedKeys(directions.Keys);
    ExitsAtOk(strict, directions, keys);
    assert SortedExits(directions) == ExitsAt(directions, keys);
  }

  // ---------- A whole room ----------

  /** The rooms, with their exits in order, whose pieces are taken as they stand. */
  predicate Printable(r: Room, exits: seq<Exit>) {
    && TextsOk(false, r) && ListsOk(false, r) && (forall i | 0 <= i < |exits| :: ExitOk(false, exits[i]))
    && r.idnum >= 0 && r.zone >= 0 && r.sector >= 0 && r.occupancy >= 0
    && r.flags != "" && Word.All(r.flags)
    && r.directions == AddExits(map[], exits)
  }

  function FirstPieces(r: Room, exits: seq<Exit>): seq<Piece> {
    HeaderPieces(r) + AllPieces(exits, ExitPieces) + AllPieces(r.extradescs, ExtradescPieces)
  }

  lemma FirstRead(r: Room, exits: seq<Exit>)
    requires Printable(r, exits)
    ensures var m := TakePieces(START, FirstPieces(r, exits));
      m.Some? && Between(m.value, r.(prog := "", searches := [], sound := "", flows := [], occupancy := 255,
                                     specialParam := ""))
  {
    HeaderRead(r);
    var m := TakePieces(START, HeaderPieces(r)).value;
    ExitsRead(m, exits);
    var m1 := TakePieces(m, AllPieces(exits, ExitPieces)).value;
    ExtradescsRead(m1, r.extradescs);
    Extend3(TakePiece, START, HeaderPieces(r), m, AllPieces(exits, ExitPieces), m1,
            AllPieces(r.extradescs, ExtradescPieces));
  }

  lemma BodyRead(r: Room, exits: seq<Exit>)
    requires Printable(r, exits)
    ensures var m := TakePieces(START, BodyPieces(r, exits)); m.Some? && Between(m.value, r)
  {
    FirstRead(r, exits);
    TailRead(r, FirstPieces(r, exits), TakePieces(START, FirstPieces(r, exits)).value);
  }

  /** The sections from the program on, for a machine that has read the ones before. */
  lemma TailRead(r: Room, ps: seq<Piece>, m: Machine)
    requires TextsOk(false, r) && ListsOk(false, r) && r.occupancy >= 0
    requires TakePieces(START, ps) == Some(m)
    requires Between(m, r.(prog := "", searches := [], sound := "", flows := [], occupancy := 255, specialParam := ""))
    ensures var all := ps + Section("R", r.prog) + AllPieces(r.searches, SearchPieces) + Section("L", r.sound)
                       + AllPieces(r.flows, FlowPieces) + [Line("O " + Int(r.occupancy))]
                       + Section("P", r.specialParam);
      TakePieces(START, all).Some? && Between(TakePieces(START, all).value, r)
  {
    SectionRead(m, "R", r.prog);
    var m1 := TakePieces(m, Section("R", r.prog)).value;
    Extend(TakePiece, START, ps, m, Section("R", r.prog));
    var ps1 := ps + Section("R", r.prog);
    SearchesRead(m1, r.searches);
    var m2 := TakePieces(m1, AllPieces(r.searches, SearchPieces)).value;
    Extend(TakePiece, START, ps1, m1, AllPieces(r.searches, SearchPieces));
    LastRead(r, ps1 + AllPieces(r.searches, SearchPieces), m2);
  }

  lemma LastRead(r: Room, ps: seq<Piece>, m: Machine)
    requires TextsOk(false, r) && ListsOk(false, r) && r.occupancy >= 0
    requires TakePieces(START, ps) == Some(m)
    requires Between(m, r.(sound := "", flows := [], occupancy := 255, specialParam := ""))
    ensures var all := ps + Section("L", r.sound) + AllPieces(r.flows, FlowPieces) + [Line("O " + Int(r.occupancy))]
                       + Section("P", r.specialParam);
      TakePieces(START, all).Some? && Between(TakePieces(START, all).value, r)
  {
    SectionRead(m, "L", r.sound);
    var m1 := TakePieces(m, Section("L", r.sound)).value;
    Extend(TakePiece, START, ps, m, Section("L", r.sound));
    var ps1 := ps + Section("L", r.sound);
    FlowsRead(m1, r.flows);
    var m2 := TakePieces(m1, AllPieces(r.flows, FlowPieces)).value;
    Extend(TakePiece, START, ps1, m1, AllPieces(r.flows, FlowPieces));
    EndRead(r, ps1 + AllPieces(r.flows, FlowPieces), m2);
  }

  lemma EndRead(r: Room, ps: seq<Piece>, m: Machine)
    requires TextsOk(false, r) && ListsOk(false, r) && r.occupancy >= 0
    requires TakePieces(START, ps) == Some(m)
    requires Between(m, r.(occupancy := 255, specialParam := ""))
    ensures var all := ps + [Line("O " + Int(r.occupancy))] + Section("P", r.specialParam);
      TakePieces(START, all).Some? && Between(TakePieces(START, all).value, r)
  {
    OccupancyRead(m, r.occupancy);
    var m1 := m.(room := m.room.(occupancy := r.occupancy));
    Extend(TakePiece, START, ps, m, [Line("O " + Int(r.occupancy))]);
    SectionRead(m1, "P", r.specialParam);
    Extend(TakePiece, START, ps + [Line("O " + Int(r.occupancy))], m1, Section("P", r.specialParam));
  }

  lemma CloseRead(m: Machine, rest: string)
    requires m.state == Optional
    ensures Run(m, "S\n" + rest) == Loaded(m.room, rest)
  {
    GetPrintedLine("S", rest);
    assert "S\n" + rest == "S" + "\n" + rest;
  }

  lemma RenderClosed(ps: seq<Piece>, rest: string)
    ensures Render(ps + [Line("S")]) + rest == Render(ps) + ("S\n" + rest)
  {
    RenderConcat(ps, [Line("S")]);
    assert Render([Line("S")]) == "S\n" + "";
    Assoc(Render(ps), "S\n", rest);
  }

  // ---------- The room that a printed room reads back as ----------

  function UnixExit(e: Exit): Exit {
    e.(description := Unix(e.description), keywords := Unix(e.keywords))
  }

  function UnixSearch(z: Search): Search {
    z.(triggers := Unix(z.triggers), keywords := Unix(z.keywords), toVict := Unix(z.toVict),
       toRoom := Unix(z.toRoom), toRemote := Unix(z.toRemote))
  }

  function UnixExits(r: Room): seq<Exit> {
    Mapped(SortedExits(r.directions), UnixExit)
  }

  /** r with the line ends of its texts normalised. */
  function UnixRoom(r: Room): Room {
    r.(title := Unix(r.title), description := Unix(r.description), prog := Unix(r.prog), sound := Unix(r.sound),
       specialParam := Unix(r.specialParam), directions := AddExits(map[], UnixExits(r)),
       extradescs := Mapped(r.extradescs, UnixExtradesc), searches := Mapped(r.searches, UnixSearch))
  }

  lemma UnixExitPieces(e: Exit)
    ensures UnixPieces(ExitPieces(e)) == ExitPieces(UnixExit(e))
  {
    var first, last := Line("D" + Int(e.direction)), ExitNumbers(e);
    UnixPieces2(first, last);
    UnixPieces2(last, first);
    UnixPieces2(TildeStr(e.description), TildeStr(e.keywords));
    UnixPiecesConcat([first] + ExitTexts(e), [last]);
    UnixPiecesConcat([first], ExitTexts(e));
  }

  lemma UnixSearchPieces(z: Search)
    ensures UnixPieces(SearchPieces(z)) == SearchPieces(UnixSearch(z))
  {
    UnixPieces2(Line("Z"), Line("Z"));
    UnixPieces4(TildeStr(z.triggers), TildeStr(z.keywords), TildeStr(z.toVict), TildeStr(z.toRoom));
    UnixPieces2(SearchEnd(z)[0], SearchEnd(z)[1]);
    UnixPiecesConcat([Line("Z")], SearchTexts(z));
    UnixPiecesConcat([Line("Z")] + SearchTexts(z), SearchEnd(z));
  }

  lemma UnixFlowPieces(f: Flow)
    ensures UnixPieces(FlowPieces(f)) == FlowPieces(f)
  {
    UnixPieces2(FlowPieces(f)[0], FlowPieces(f)[1]);
  }

  lemma UnixHeader(r: Room)
    ensures UnixPieces(HeaderPieces(r)) == HeaderPieces(UnixRoom(r))
  {
    var ps := HeaderPieces(r);
    UnixPieces2(ps[0], ps[1]);
    UnixPieces2(ps[2], ps[3]);
    UnixPiecesConcat([ps[0], ps[1]], [ps[2], ps[3]]);
    assert ps == [ps[0], ps[1]] + [ps[2], ps[3]];
  }

  lemma UnixLists(r: Room, exits: seq<Exit>)
    ensures UnixPieces(AllPieces(exits, ExitPieces)) == AllPieces(Mapped(exits, UnixExit), ExitPieces)
    ensures UnixPieces(AllPieces(r.extradescs, ExtradescPieces)) == AllPieces(UnixRoom(r).extradescs, ExtradescPieces)
    ensures UnixPieces(AllPieces(r.searches, SearchPieces)) == AllPieces(UnixRoom(r).searches, SearchPieces)
    ensures UnixPieces(AllPieces(r.flows, FlowPieces)) == AllPieces(r.flows, FlowPieces)
  {
    forall e: Exit ensures UnixPieces(ExitPieces(e)) == ExitPieces(UnixExit(e)) {
      UnixExitPieces(e);
    }
    UnixAllPieces(exits, ExitPieces, UnixExit);
    forall x: Extradesc ensures UnixPieces(ExtradescPieces(x)) == ExtradescPieces(UnixExtradesc(x)) {
      UnixExtradescPieces(x);
    }
    UnixAllPieces(r.extradescs, ExtradescPieces, UnixExtradesc);
    forall z: Search ensures UnixPieces(SearchPieces(z)) == SearchPieces(UnixSearch(z)) {
      UnixSearchPieces(z);
    }
    UnixAllPieces(r.searches, SearchPieces, UnixSearch);
    var same := (f: Flow) => f;
    forall f: Flow ensures UnixPieces(FlowPieces(f)) == FlowPieces(same(f)) {
      UnixFlowPieces(f);
    }
    UnixAllPieces(r.flows, FlowPieces, same);
    MappedSame(r.flows, same);
  }

  lemma UnixBody(r: Room)
    ensures UnixPieces(BodyPieces(r, SortedExits(r.directions))) == BodyPieces(UnixRoom(r), UnixExits(r))
  {
    var u, exits := UnixRoom(r), SortedExits(r.directions);
    UnixHeader(r);
    UnixLists(r, exits);
    UnixSection("R", r.prog);
    UnixSection("L", r.sound);
    UnixSection("P", r.specialParam);
    UnixPieces2(Line("O " + Int(r.occupancy)), Line("O " + Int(r.occupancy)));
    UnixConcat9(HeaderPieces(r), AllPieces(exits, ExitPieces), AllPieces(r.extradescs, ExtradescPieces),
                Section("R", r.prog), AllPieces(r.searches, SearchPieces), Section("L", r.sound),
                AllPieces(r.flows, FlowPieces), [Line("O " + Int(r.occupancy))], Section("P", r.specialParam));
  }

  lemma UnixConcat9(a: seq<Piece>, b: seq<Piece>, c: seq<Piece>, d: seq<Piece>, e: seq<Piece>, f: seq<Piece>,
                    g: seq<Piece>, h: seq<Piece>, i: seq<Piece>)
    ensures UnixPieces(a + b + c + d + e + f + g + h + i)
         == UnixPieces(a) + UnixPieces(b) + UnixPieces(c) + UnixPieces(d) + UnixPieces(e) + UnixPieces(f)
            + UnixPieces(g) + UnixPieces(h) + UnixPieces(i)
  {
    UnixPiecesConcat(a, b);
    UnixPiecesConcat(a + b, c);
    UnixPiecesConcat(a + b + c, d);
    UnixPiecesConcat(a + b + c + d, e);
    UnixPiecesConcat(a + b + c + d + e, f);
    UnixPiecesConcat(a + b + c + d + e + f, g);
    UnixPiecesConcat(a + b + c + d + e + f + g, h);
    UnixPiecesConcat(a + b + c + d + e + f + g + h, i);
  }

  // ---------- What the machine can build ----------

  predicate ExitStarted(strict: bool, e: Exit) {
    e.direction >= 0 && TextOk(strict, e.description) && TextOk(strict, e.keywords)
  }

  predicate ExitsOk(strict: bool, m: Machine) {
    forall d | d in m.room.directions ::
      && m.room.directions[d].direction == d
      && ExitStarted(strict, m.room.directions[d])
      && (!(InExit(m) && d == m.direction) ==> ExitOk(strict, m.room.directions[d]))
  }

  predicate MachineOk(strict: bool, m: Machine) {
    && TextsOk(strict, m.room)
    && m.room.idnum >= 0 && m.room.zone >= 0 && m.room.sector >= 0 && m.room.occupancy >= 0
    && m.room.flags != "" && Word.All(m.room.flags)
    && ExitsOk(strict, m)
    && (InExit(m) ==> m.direction in m.room.directions)
    && (forall i | 0 <= i < |m.room.extradescs| :: ExtradescOk(strict, m.room.extradescs[i]))
    && (forall i | 0 <= i < |m.room.searches| :: SearchOk(strict, m.room.searches[i]))
    && ExtradescOk(strict, m.extradesc) && SearchOk(strict, m.search)
  }

  lemma DirTildeOk(strict: bool, m: Machine, t: string)
    requires MachineOk(strict, m) && (m.state == DirDesc || m.state == DirKeywords) && TextOk(strict, t)
    ensures MachineOk(strict, AfterTilde(m, t))
  {
  }

  lemma AfterTildeOk(strict: bool, m: Machine, t: string)
    requires MachineOk(strict, m) && !ReadsLine(m.state) && TextOk(strict, t)
    ensures MachineOk(strict, AfterTilde(m, t))
  {
    if m.state == DirDesc || m.state == DirKeywords {
      DirTildeOk(strict, m, t);
    } else if m.state == ExDescrip {
    } else {
      assert AfterTilde(m, t).room.directions == m.room.directions;
    }
  }

  lemma AfterOptionalOk(strict: bool, m: Machine, line: string)
    requires MachineOk(strict, m) && m.state == Optional && AfterOptional(m, line).Go?
    ensures MachineOk(strict, AfterOptional(m, line).m)
  {
    if line[0] == 'O' {
      IntOfDigits(MatchFields([Digit], false, line[2..]).value.values[0]);
    } else if line[0] == 'D' {
      IntOfDigits(MatchFields([Digit], false, line[1..]).value.values[0]);
    }
  }

  lemma AfterFlagsOk(strict: bool, m: Machine, line: string)
    requires MachineOk(strict, m) && m.state == Flags && AfterFlags(m, line).Go?
    ensures MachineOk(strict, AfterFlags(m, line).m)
  {
    var f := MatchFields([Digit, Word, Digit], false, line).value;
    IntOfDigits(f.values[0]);
    IntOfDigits(f.values[2]);
    assert Word.All(f.values[1]);
  }

  lemma AfterDirFlagsOk(strict: bool, m: Machine, line: string)
    requires MachineOk(strict, m) && m.state == DirFlags && AfterDirFlags(m, line).Go?
    ensures MachineOk(strict, AfterDirFlags(m, line).m)
  {
    var f := MatchFields([Word, Signed, Signed], true, line).value;
    assert Word.All(f.values[0]);
  }

  lemma AfterSearchFlagsOk(strict: bool, m: Machine, line: string)
    requires MachineOk(strict, m) && m.state == SearchFlags && AfterSearchFlags(m, line).Go?
    ensures MachineOk(strict, AfterSearchFlags(m, line).m)
  {
  }

  lemma AfterLineOk(strict: bool, m: Machine, line: string)
    requires MachineOk(strict, m) && ReadsLine(m.state) && AfterLine(m, line).Go?
    ensures MachineOk(strict, AfterLine(m, line).m)
  {
    match m.state
    case RoomNum =>
    case Flags => AfterFlagsOk(strict, m, line);
    case Optional => AfterOptionalOk(strict, m, line);
    case DirFlags => AfterDirFlagsOk(strict, m, line);
    case FlowLine =>
    case SearchFlags => AfterSearchFlagsOk(strict, m, line);
  }

  lemma {:induction false} RunOk(strict: bool, m: Machine, s: string)
    requires MachineOk(strict, m) && (strict ==> SingleCr(s)) && Run(m, s).Loaded?
    ensures RoomOk(strict, Run(m, s).room) && (strict ==> SingleCr(Run(m, s).rest))
    decreases |s|
  {
    var next := GetLine(s);
    if strict {
      GetLineOfSingleCr(s);
    }
    if !ReadsLine(m.state) {
      var t := ReadTilde(next.line, next.rest);
      if strict {
        ReadTildeCarried(next.line, next.rest);
      }
      AfterTildeOk(strict, m, t.line);
      RunOk(strict, AfterTilde(m, t.line), t.rest);
    } else if AfterLine(m, next.line).Go? {
      AfterLineOk(strict, m, next.line);
      RunOk(strict, AfterLine(m, next.line).m, next.rest);
    } else {
      assert m.state == Optional;
    }
  }

  lemma {:induction false} RunEndOk(m: Machine, s: string)
    requires SingleCr(s) && Run(m, s).EndMark?
    ensures SingleCr(Run(m, s).rest)
    decreases |s|
  {
    var next := GetLine(s);
    GetLineOfSingleCr(s);
    if !ReadsLine(m.state) {
      var t := ReadTilde(next.line, next.rest);
      ReadTildeCarried(next.line, next.rest);
      RunEndOk(AfterTilde(m, t.line), t.rest);
    } else if AfterLine(m, next.line).Go? {
      RunEndOk(AfterLine(m, next.line).m, next.rest);
    }
  }

  // ---------- When a printed room is read back as itself ----------

  lemma UnixExitOk(e: Exit)
    requires ExitOk(false, e)
    ensures ExitOk(false, UnixExit(e))
    ensures ExitOk(true, e) <==> UnixExit(e) == e
  {
    NoTildeInUnix(e.description);
    NoTildeInUnix(e.keywords);
  }

  lemma UnixSearchOk(z: Search)
    requires SearchOk(false, z)
    ensures SearchOk(false, UnixSearch(z))
    ensures SearchOk(true, z) <==> UnixSearch(z) == z
  {
    NoTildeInUnix(z.triggers);
    NoTildeInUnix(z.keywords);
    NoTildeInUnix(z.toVict);
    NoTildeInUnix(z.toRoom);
    NoTildeInUnix(z.toRemote);
  }

  lemma MappedExitsOk(exits: seq<Exit>)
    requires forall i | 0 <= i < |exits| :: ExitOk(false, exits[i])
    ensures var us := Mapped(exits, UnixExit);
      forall i | 0 <= i < |us| :: ExitOk(false, us[i])
  {
    MappedSame(exits, UnixExit);
    forall i | 0 <= i < |exits| ensures ExitOk(false, UnixExit(exits[i])) {
      UnixExitOk(exits[i]);
    }
  }

  lemma UnixSearchesOk(zs: seq<Search>)
    requires forall i | 0 <= i < |zs| :: SearchOk(false, zs[i])
    ensures var us := Mapped(zs, UnixSearch);
      && (forall i | 0 <= i < |us| :: SearchOk(false, us[i]))
      && ((forall i | 0 <= i < |zs| :: SearchOk(true, zs[i])) <==> us == zs)
  {
    MappedSame(zs, UnixSearch);
    forall i | 0 <= i < |zs|
      ensures SearchOk(false, UnixSearch(zs[i]))
      ensures SearchOk(true, zs[i]) <==> UnixSearch(zs[i]) == zs[i]
    {
      UnixSearchOk(zs[i]);
    }
  }

  lemma UnixTextsOk(r: Room)
    requires TextsOk(false, r)
    ensures TextsOk(false, UnixRoom(r))
    ensures TextsOk(true, r) <==> (
      && Unix(r.title) == r.title && Unix(r.description) == r.description && Unix(r.prog) == r.prog
      && Unix(r.sound) == r.sound && Unix(r.specialParam) == r.specialParam)
  {
    NoTildeInUnix(r.title);
    NoTildeInUnix(r.description);
    NoTildeInUnix(r.prog);
    NoTildeInUnix(r.sound);
    NoTildeInUnix(r.specialParam);
  }

  lemma UnixPrintable(r: Room)
    requires RoomOk(false, r)
    ensures Printable(UnixRoom(r), UnixExits(r))
  {
    var exits := UnixExits(r);
    assert forall i | 0 <= i < |exits| :: ExitOk(false, exits[i]) by {
      SortedExitsOk(false, r.directions);
      MappedExitsOk(SortedExits(r.directions));
      assert exits == Mapped(SortedExits(r.directions), UnixExit);
    }
    UnixPlainLists(r);
    UnixTextsOk(r);
  }

  lemma UnixPlainLists(r: Room)
    requires ListsOk(false, r)
    ensures ListsOk(false, UnixRoom(r))
    ensures ListsOk(true, r) <==> UnixRoom(r).extradescs == r.extradescs && UnixRoom(r).searches == r.searches
  {
    UnixExtradescsOk(r.extradescs);
    UnixSearchesOk(r.searches);
  }

  /** What any tilde-free room reads back as. */
  lemma ReadBack(r: Room, rest: string)
    requires RoomOk(false, r)
    ensures Load(RoomText(r) + rest) == Loaded(UnixRoom(r), rest)
  {
    UnixPrintable(r);
    BodyRead(UnixRoom(r), UnixExits(r));
    UnixBody(r);
    var ps := BodyPieces(r, SortedExits(r.directions));
    RenderClosed(ps, rest);
    PiecesRun(START, ps, "S\n" + rest);
    CloseRead(TakePieces(START, UnixPieces(ps)).value, rest);
  }

  /** Every entry of the table that normalised exits build is the normalised exit of its direction. */
  lemma {:induction false} AddUnixExits(part: map<int, Exit>, directions: map<int, Exit>, keys: seq<int>)
    requires forall d | d in directions :: directions[d].direction == d
    requires forall d | d in part :: d in directions && part[d] == UnixExit(directions[d])
    requires forall i | 0 <= i < |keys| :: keys[i] in directions
    ensures var t := AddExits(part, Mapped(ExitsAt(directions, keys), UnixExit));
      forall d | d in t :: d in directions && t[d] == UnixExit(directions[d])
    decreases |keys|
  {
    if keys != [] {
      var exits, d := ExitsAt(directions, keys), keys[0];
      assert exits[0] == directions[d] && exits[1..] == ExitsAt(directions, keys[1..]);
      var us := Mapped(exits, UnixExit);
      assert us[0] == UnixExit(directions[d]) && us[1..] == Mapped(exits[1..], UnixExit);
      AddUnixExits(part[d := UnixExit(directions[d])], directions, keys[1..]);
    }
  }

  lemma UnixExitsSame(r: Room)
    requires forall d | d in r.directions :: r.directions[d].direction == d && ExitOk(false, r.directions[d])
    requires UnixRoom(r).directions == r.directions
    ensures forall d | d in r.directions :: ExitOk(true, r.directions[d])
  {
    AddUnixExits(map[], r.directions, SortedKeys(r.directions.Keys));
    forall d | d in r.directions ensures ExitOk(true, r.directions[d]) {
      UnixExitOk(r.directions[d]);
    }
  }

  lemma UnixExitsUnchanged(r: Room)
    requires forall d | d in r.directions :: r.directions[d].direction == d && ExitOk(true, r.directions[d])
    ensures UnixRoom(r).directions == r.directions
  {
    var exits := SortedExits(r.directions);
    SortedExitsOk(true, r.directions);
    MappedSame(exits, UnixExit);
    forall i | 0 <= i < |exits| ensures UnixExit(exits[i]) == exits[i] {
      UnixExitOk(exits[i]);
    }
    ExitsRestored(r.directions);
  }

  lemma UnixDirectionsSame(r: Room)
    requires RoomOk(false, r)
    ensures UnixRoom(r).directions == r.directions <==> forall d | d in r.directions :: ExitOk(true, r.directions[d])
  {
    if UnixRoom(r).directions == r.directions {
      UnixExitsSame(r);
    } else if forall d | d in r.directions :: ExitOk(true, r.directions[d]) {
      UnixExitsUnchanged(r);
    }
  }

  lemma UnixRoomSame(r: Room)
    requires RoomOk(false, r)
    ensures UnixRoom(r) == r <==> WellFormed(r)
  {
    UnixTextsOk(r);
    UnixPlainLists(r);
    UnixDirectionsSame(r);
  }

  /** Whatever text it is loaded from, a room holds nothing that could not be printed but for carriage
      returns before newlines. */
  lemma LoadedPlain(s: string)
    ensures Load(s).Loaded? ==> RoomOk(false, Load(s).room)
  {
    if Load(s).Loaded? {
      RunOk(false, START, s);
    }
  }

  lemma ReadSame(o: Outcome, r: Room, rest: string)
    requires o.Loaded? ==> RoomOk(false, o.room)
    requires RoomOk(false, r) ==> o == Loaded(UnixRoom(r), rest)
    ensures o == Loaded(r, rest) <==> WellFormed(r)
  {
    if RoomOk(false, r) {
      UnixRoomSame(r);
    }
  }

  /** A printed room is read back as the same room, with nothing after it touched, exactly when it is
      well formed: no tilde and no carriage return before a newline in its texts, flags and exit flags
      that are one word, each exit under its own direction, and no negative number where only digits
      are read. */
  lemma RoundTripIff(r: Room, rest: string)
    ensures Load(RoomText(r) + rest) == Loaded(r, rest) <==> WellFormed(r)
  {
    if RoomOk(false, r) {
      ReadBack(r, rest);
    }
    LoadedPlain(RoomText(r) + rest);
    ReadSame(Load(RoomText(r) + rest), r, rest);
  }

  // ---------- Whole files ----------

  predicate RoomsOk(strict: bool, rooms: seq<Room>) {
    forall i | 0 <= i < |rooms| :: RoomOk(strict, rooms[i])
  }

  lemma RoomsOkCons(strict: bool, r: Room, rooms: seq<Room>)
    ensures RoomsOk(strict, [r] + rooms) <==> RoomOk(strict, r) && RoomsOk(strict, rooms)
  {
    var all := [r] + rooms;
    assert all[0] == r && all[1..] == rooms;
    if RoomsOk(strict, all) {
      forall i | 0 <= i < |rooms| ensures RoomOk(strict, rooms[i]) {
        assert rooms[i] == all[i + 1];
      }
    }
  }

  lemma EndMarkRead(rest: string)
    ensures Load("$~\n" + rest) == EndMark(rest)
  {
    GetPrintedLine("$~", rest);
    assert "$~\n" + rest == "$~" + "\n" + rest;
  }

  /** Printing any list of well-formed rooms and reading the file gives back the list. */
  lemma {:induction false} FileRoundTrip(rooms: seq<Room>)
    requires RoomsOk(true, rooms)
    ensures ReadFile(FileText(rooms)) == Complete(rooms)
    decreases |rooms|
  {
    var end := "$~\n";
    if rooms == [] {
      EndMarkRead("");
      assert "" + end == end + "";
    } else {
      Assoc(RoomText(rooms[0]), RoomTexts(rooms[1..]), end);
      RoundTripIff(rooms[0], FileText(rooms[1..]));
      FileRoundTrip(rooms[1..]);
      assert FileText(rooms[1..])[|FileText(rooms[1..])| - 1] == '\n';
      assert [rooms[0]] + rooms[1..] == rooms;
    }
  }

  lemma {:induction false} FileReadBack(rooms: seq<Room>)
    requires RoomsOk(false, rooms)
    ensures ReadFile(FileText(rooms)) == Complete(Mapped(rooms, UnixRoom))
    decreases |rooms|
  {
    var end := "$~\n";
    if rooms == [] {
      EndMarkRead("");
      assert "" + end == end + "";
    } else {
      Assoc(RoomText(rooms[0]), RoomTexts(rooms[1..]), end);
      ReadBack(rooms[0], FileText(rooms[1..]));
      FileReadBack(rooms[1..]);
      assert FileText(rooms[1..])[|FileText(rooms[1..])| - 1] == '\n';
    }
  }

  /** Rooms without tildes and the like are read back from a file as themselves exactly when all of them
      are well formed. */
  lemma FileRoundTripIff(rooms: seq<Room>)
    requires RoomsOk(false, rooms)
    ensures ReadFile(FileText(rooms)) == Complete(rooms) <==> RoomsOk(true, rooms)
  {
    FileReadBack(rooms);
    MappedSame(rooms, UnixRoom);
    forall i | 0 <= i < |rooms| ensures UnixRoom(rooms[i]) == rooms[i] <==> WellFormed(rooms[i]) {
      UnixRoomSame(rooms[i]);
    }
  }

  // ---------- Rereading ----------

  /** Whatever order its optional sections come in, an accepted record yields a room that the printer can
      represent; of a text with two carriage returns before a newline, all but the carriage returns that
      its line ends leave. */
  lemma LoadedWellFormed(s: string)
    requires Load(s).Loaded?
    ensures RoomOk(false, Load(s).room)
    ensures SingleCr(s) ==> WellFormed(Load(s).room) && SingleCr(Load(s).rest)
  {
    LoadedPlain(s);
    if SingleCr(s) {
      RunOk(true, START, s);
    }
  }

  /** So loading, printing and loading again gives the same room with its line ends normalised, whatever
      follows it; of a text with single carriage returns, the same room. */
  lemma Reload(s: string, rest: string)
    requires Load(s).Loaded?
    ensures Load(RoomText(Load(s).room) + rest) == Loaded(UnixRoom(Load(s).room), rest)
    ensures SingleCr(s) ==> UnixRoom(Load(s).room) == Load(s).room
  {
    LoadedWellFormed(s);
    ReadBack(Load(s).room, rest);
    UnixRoomSame(Load(s).room);
  }

  lemma {:induction false} ReadFileWellFormed(s: string)
    requires ReadFile(s).Complete?
    ensures RoomsOk(false, ReadFile(s).rooms)
    ensures SingleCr(s) ==> RoomsOk(true, ReadFile(s).rooms)
    decreases |s|
  {
    if s != "" {
      match Load(s)
      case Loaded(r, rest) =>
        LoadedWellFormed(s);
        ReadFileWellFormed(rest);
        RoomsOkCons(false, r, ReadFile(rest).rooms);
        RoomsOkCons(true, r, ReadFile(rest).rooms);
      case EndMark(rest) =>
        if SingleCr(s) {
          RunEndOk(START, s);
        }
        ReadFileWellFormed(rest);
    }
  }

  /** Printing the rooms of an accepted file as they are and reading that gives the rooms with their line
      ends normalised; of a file with single carriage returns, the same rooms. */
  lemma ReprintFile(s: string)
    requires ReadFile(s).Complete?
    ensures ReadFile(FileText(ReadFile(s).rooms)) == Complete(Mapped(ReadFile(s).rooms, UnixRoom))
    ensures SingleCr(s) ==> ReadFile(FileText(ReadFile(s).rooms)) == ReadFile(s)
  {
    ReadFileWellFormed(s);
    FileReadBack(ReadFile(s).rooms);
    FileRoundTripIff(ReadFile(s).rooms);
  }

  // ---------- The length of what is printed ----------

  /** The table of exits with their line ends normalised. */
  function UnixTable(directions: map<int, Exit>): map<int, Exit> {
    map d | d in directions :: UnixExit(directions[d])
  }

  lemma {:induction false} UnixTableAt(directions: map<int, Exit>, keys: seq<int>)
    requires forall i | 0 <= i < |keys| :: keys[i] in directions
    ensures ExitsAt(UnixTable(directions), keys) == Mapped(ExitsAt(directions, keys), UnixExit)
    decreases |keys|
  {
    if keys != [] {
      UnixTableAt(directions, keys[1..]);
      assert ExitsAt(directions, keys)[1..] == ExitsAt(directions, keys[1..]);
    }
  }

  /** What the exits of a printed room read back as. */
  lemma UnixTableRead(r: Room)
    requires forall d | d in r.directions :: r.directions[d].direction == d
    ensures UnixRoom(r).directions == UnixTable(r.directions)
    ensures SortedExits(UnixTable(r.directions)) == UnixExits(r)
  {
    assert UnixTable(r.directions).Keys == r.directions.Keys;
    UnixTableAt(r.directions, SortedKeys(r.directions.Keys));
    ExitsRestored(UnixTable(r.directions));
  }

  lemma {:induction false} UnixShorter(t: string)
    ensures |Unix(t)| == |t| ==> Unix(t) == t
    decreases |t|
  {
    var n := Span(LineBody, t);
    if n < |t| && |Unix(t)| == |t| {
      UnixShorter(t[n + 1..]);
      assert t == t[..n] + "\n" + t[n + 1..];
    }
  }

  lemma {:induction false} UnixPiecesShorter(ps: seq<Piece>)
    ensures |Render(UnixPieces(ps))| <= |Render(ps)|
    ensures |Render(UnixPieces(ps))| == |Render(ps)| ==> UnixPieces(ps) == ps
    decreases |ps|
  {
    if ps != [] {
      UnixPiecesShorter(ps[1..]);
      UnixShorter(ps[0].text);
      assert UnixPieces(ps)[1..] == UnixPieces(ps[1..]);
    }
  }

  /** The pieces of a room tell which room it is. */
  lemma SamePieces(r: Room, u: Room, exits: seq<Exit>, us: seq<Exit>)
    requires Printable(r, exits) && Printable(u, us) && BodyPieces(r, exits) == BodyPieces(u, us)
    ensures r == u
  {
    BodyRead(r, exits);
    BodyRead(u, us);
  }

  lemma SortedPrintable(r: Room)
    requires RoomOk(false, r)
    ensures Printable(r, SortedExits(r.directions))
  {
    SortedExitsOk(false, r.directions);
    ExitsRestored(r.directions);
  }

  /** With its line ends normalised, the text of a room that is not well formed is shorter. */
  lemma UnixRoomShorter(r: Room)
    requires RoomOk(false, r)
    ensures |RoomText(UnixRoom(r))| <= |RoomText(r)|
    ensures |RoomText(UnixRoom(r))| == |RoomText(r)| ==> WellFormed(r)
  {
    var u, exits := UnixRoom(r), SortedExits(r.directions);
    var ps := BodyPieces(r, exits);
    UnixBody(r);
    UnixTableRead(r);
    LineText(ps, "S");
    LineText(UnixPieces(ps), "S");
    UnixPiecesShorter(ps);
    if UnixPieces(ps) == ps {
      UnixPrintable(r);
      SortedPrintable(r);
      SamePieces(r, u, exits, UnixExits(r));
      UnixRoomSame(r);
    }
  }

  lemma RenderLength9(a: seq<Piece>, b: seq<Piece>, c: seq<Piece>, d: seq<Piece>, e: seq<Piece>, f: seq<Piece>,
                      g: seq<Piece>, h: seq<Piece>, i: seq<Piece>)
    ensures |Render(a + b + c + d + e + f + g + h + i)|
         == |Render(a)| + |Render(b)| + |Render(c)| + |Render(d)| + |Render(e)| + |Render(f)| + |Render(g)|
            + |Render(h)| + |Render(i)|
  {
    RenderConcat(a, b);
    RenderConcat(a + b, c);
    RenderConcat(a + b + c, d);
    RenderConcat(a + b + c + d, e);
    RenderConcat(a + b + c + d + e, f);
    RenderConcat(a + b + c + d + e + f, g);
    RenderConcat(a + b + c + d + e + f + g, h);
    RenderConcat(a + b + c + d + e + f + g + h, i);
  }

  lemma HeaderLength(r: Room, title: string)
    ensures |Render(HeaderPieces(r.(title := title)))| - |Render(HeaderPieces(r))| == |title| - |r.title|
  {
    var ps, us := HeaderPieces(r), HeaderPieces(r.(title := title));
    Render4(ps[0], ps[1], ps[2], ps[3]);
    Render4(us[0], us[1], us[2], us[3]);
  }

  /** The length of the printed room but for its first pieces. */
  function RestLength(r: Room): int {
    |Render(AllPieces(SortedExits(r.directions), ExitPieces))| + |Render(AllPieces(r.extradescs, ExtradescPieces))|
    + |Render(Section("R", r.prog))| + |Render(AllPieces(r.searches, SearchPieces))|
    + |Render(Section("L", r.sound))| + |Render(AllPieces(r.flows, FlowPieces))|
    + |Render([Line("O " + Int(r.occupancy))])| + |Render(Section("P", r.specialParam))| + 2
  }

  lemma RoomLength(r: Room)
    ensures |RoomText(r)| == |Render(HeaderPieces(r))| + RestLength(r)
  {
    var exits := SortedExits(r.directions);
    LineText(BodyPieces(r, exits), "S");
    RenderLength9(HeaderPieces(r), AllPieces(exits, ExitPieces), AllPieces(r.extradescs, ExtradescPieces),
                  Section("R", r.prog), AllPieces(r.searches, SearchPieces), Section("L", r.sound),
                  AllPieces(r.flows, FlowPieces), [Line("O " + Int(r.occupancy))], Section("P", r.specialParam));
  }

  lemma TitleLength(r: Room, title: string)
    ensures |RoomText(r.(title := title))| - |RoomText(r)| == |title| - |r.title|
  {
    HeaderLength(r, title);
    RoomLength(r);
    RoomLength(r.(title := title));
  }
}
