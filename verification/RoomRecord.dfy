/** A room object that prints itself into a growing text and fills itself in from the lines of a
    file, field by field. */
module RoomRecord {
  import opened Text
  import opened Pieces
  import opened Extradescs
  import opened Inputs
  import opened Rooms

  datatype LoadResult = True | False | AtEnd | Raised

  class RoomRecord {
    var idnum: int
    var title: string
    var description: string
    var zone: int
    var flags: string
    var sector: int
    var directions: map<int, Exit>
    var extradescs: seq<Extradesc>
    var prog: string
    var searches: seq<Search>
    var sound: string
    var flows: seq<Flow>
    var occupancy: int
    var specialParam: string

    // What a load keeps between lines.
    var state: State
    var direction: int
    var extradesc: Extradesc
    var search: Search

    function Value(): Room
      reads this
    {
      Room(idnum, title, description, zone, flags, sector, directions, extradescs, prog, searches, sound, flows,
           occupancy, specialParam)
    }

    function AsMachine(): Machine
      reads this
    {
      Machine(state, Value(), direction, extradesc, search)
    }

    constructor ()
      ensures AsMachine() == START
    {
      idnum, title, description, zone, flags, sector := 0, "", "", 0, "0", 0;
      directions, extradescs, prog, searches, sound, flows := map[], [], "", [], "", [];
      occupancy, specialParam := 255, "";
      state, direction, extradesc, search := RoomNum, 0, Extradesc("", ""), NEW_SEARCH;
    }

    // ---------- Printing ----------

    method ToS() returns (result: string)
      ensures result == RoomText(Value())
    {
      ghost var exits := SortedExits(directions);
      ghost var ps := HeaderPieces(Value());
      result := HeaderText(Value());
      HeaderTextOf(Value());
      result := AddExits(result, ps);
      ps := ps + AllPieces(exits, ExitPieces);
      result := AddExtradescs(extradescs, result, ps);
      ps := ps + AllPieces(extradescs, ExtradescPieces);
      result := AddSection(result, "R", prog, ps);
      ps := ps + Section("R", prog);
      result := AddSearches(result, ps);
      ps := ps + AllPieces(searches, SearchPieces);
      result := AddSection(result, "L", sound, ps);
      ps := ps + Section("L", sound);
      result := AddFlows(result, ps);
      ps := ps + AllPieces(flows, FlowPieces);
      LineText(ps, "O " + Int(occupancy));
      result := result + ("O " + Int(occupancy) + "\n");
      ps := ps + [Line("O " + Int(occupancy))];
      result := AddSection(result, "P", specialParam, ps);
      ps := ps + Section("P", specialParam);
      LineText(ps, "S");
      result := result + ("S" + "\n");
    }

    method AddExits(before: string, ghost ps: seq<Piece>) returns (result: string)
      requires before == Render(ps)
      ensures result == Render(ps + AllPieces(SortedExits(directions), ExitPieces))
    {
      result := before;
      var keys := SortedKeys(directions.Keys);
      ghost var exits := SortedExits(directions);
      ExitsAtIndex(directions, keys);
      NoPieces(ps, exits, ExitPieces);
      for i := 0 to |keys|
        invariant result == Render(ps + AllPieces(exits[..i], ExitPieces))
      {
        ExitTextOf(directions[keys[i]]);
        GrowPieces(ps, exits, ExitPieces, i);
        result := result + ExitText(directions[keys[i]]);
      }
      assert exits[..|keys|] == exits;
    }

    method AddSearches(before: string, ghost ps: seq<Piece>) returns (result: string)
      requires before == Render(ps)
      ensures result == Render(ps + AllPieces(searches, SearchPieces))
    {
      result := before;
      NoPieces(ps, searches, SearchPieces);
      for i := 0 to |searches|
        invariant result == Render(ps + AllPieces(searches[..i], SearchPieces))
      {
        var text := SearchToS(searches[i]);
        GrowPieces(ps, searches, SearchPieces, i);
        result := result + text;
      }
      assert searches[..|searches|] == searches;
    }

    method AddFlows(before: string, ghost ps: seq<Piece>) returns (result: string)
      requires before == Render(ps)
      ensures result == Render(ps + AllPieces(flows, FlowPieces))
    {
      result := before;
      NoPieces(ps, flows, FlowPieces);
      for i := 0 to |flows|
        invariant result == Render(ps + AllPieces(flows[..i], FlowPieces))
      {
        FlowTextOf(flows[i]);
        GrowPieces(ps, flows, FlowPieces, i);
        result := result + FlowText(flows[i]);
      }
      assert flows[..|flows|] == flows;
    }

    // ---------- Reading ----------

    method TakeTilde(t: string)
      requires !ReadsLine(state)
      modifies this
      ensures AsMachine() == AfterTilde(old(AsMachine()), t)
    {
      if state == DirDesc || state == DirKeywords {
        TakeExitText(t);
      } else if state == ExDescrip {
        StoreExtradesc(extradesc.(description := t));
      } else if state == Title || state == Description || state == Sound || state == Prog || state == SpecialParam {
        TakeText(t);
      } else {
        TakePartText(t);
      }
    }

    method TakeText(t: string)
      requires state == Title || state == Description || state == Sound || state == Prog || state == SpecialParam
      modifies this
      ensures AsMachine() == AfterTilde(old(AsMachine()), t)
    {
      match state
      case Title => title, state := t, Description;
      case Description => description, state := t, Flags;
      case Sound => sound, state := t, Optional;
      case Prog => prog, state := t, Optional;
      case SpecialParam => specialParam, state := t, Optional;
    }

    method TakeExitText(t: string)
      requires state == DirDesc || state == DirKeywords
      modifies this
      ensures AsMachine() == AfterTilde(old(AsMachine()), t)
    {
      var e := CurrentExit(AsMachine());
      if state == DirDesc {
        directions, state := directions[direction := e.(description := t)], DirKeywords;
      } else {
        directions, state := directions[direction := e.(keywords := t)], DirFlags;
      }
    }

    method StoreExtradesc(x: Extradesc)
      modifies this
      ensures AsMachine() == old(AsMachine()).(state := Optional, extradesc := x,
                room := old(Value()).(extradescs := old(extradescs) + [x]))
    {
      extradesc, extradescs, state := x, extradescs + [x], Optional;
    }

    method TakePartText(t: string)
      requires state == ExKeywords || state == SearchTriggers || state == SearchKeywords || state == SearchVict
        || state == SearchRoom || state == SearchRemote
      modifies this
      ensures AsMachine() == AfterTilde(old(AsMachine()), t)
    {
      match state
      case ExKeywords => extradesc, state := Extradesc(t, ""), ExDescrip;
      case SearchTriggers => search, state := NEW_SEARCH.(triggers := t), SearchKeywords;
      case SearchKeywords => search, state := search.(keywords := t), SearchVict;
      case SearchVict => search, state := search.(toVict := t), SearchRoom;
      case SearchRoom => search, state := search.(toRoom := t), SearchRemote;
      case SearchRemote => search, state := search.(toRemote := t), SearchFlags;
    }

    method OpenExit(d: int)
      modifies this
      ensures AsMachine() == WithExit(old(AsMachine()).(direction := d), NewExit(d), DirDesc)
    {
      direction := d;
      directions := directions[direction := NewExit(direction)];
      state := DirDesc;
    }

    /** Takes the line that opens an optional section; the answer is none when the record goes on. */
    method TakeOptional(line: string) returns (stop: Option<LoadResult>)
      requires state == Optional
      modifies this
      ensures Answers(AfterOptional(old(AsMachine()), line), stop, old(AsMachine()))
    {
      stop := None;
      if line == "" {
        stop := Some(Raised);
      } else if line[0] == 'S' {
        stop := Some(True);
      } else if line[0] == 'O' {
        var f := if |line| >= 2 && line[1] == ' ' then MatchFields([Digit], false, line[2..]) else None;
        if f.Some? {
          occupancy := IntOf(f.value.values[0]);
        } else {
          stop := Some(Raised);
        }
      } else if line[0] == 'D' {
        var f := MatchFields([Digit], false, line[1..]);
        if f.Some? {
          OpenExit(IntOf(f.value.values[0]));
        } else {
          stop := Some(Raised);
        }
      } else {
        stop := OpenSection(line);
      }
    }

    method OpenSection(line: string) returns (stop: Option<LoadResult>)
      requires state == Optional && line != "" && line[0] != 'S' && line[0] != 'O' && line[0] != 'D'
      modifies this`state
      ensures Answers(AfterOptional(old(AsMachine()), line), stop, old(AsMachine()))
    {
      stop := None;
      if line[0] == 'E' {
        state := ExKeywords;
      } else if line[0] == 'L' {
        state := State.Sound;
      } else if line[0] == 'F' {
        state := FlowLine;
      } else if line[0] == 'Z' {
        state := SearchTriggers;
      } else if line[0] == 'R' {
        state := State.Prog;
      } else if line[0] == 'P' {
        state := State.SpecialParam;
      } else {
        stop := Some(Raised);
      }
    }

    /** Whether the numbers on a line were found agrees with the step of the machine. */
    ghost predicate Took(step: LineStep, ok: bool)
      reads this
    {
      if ok then step == Go(AsMachine()) else step == Fail
    }

    method StoreFlags(f: Fields)
      requires |f.values| == 3
      modifies this
      ensures AsMachine() == WithFlags(old(AsMachine()), f)
    {
      zone, flags, sector := IntOf(f.values[0]), f.values[1], IntOf(f.values[2]);
      state := Optional;
    }

    method TakeFlags(line: string) returns (ok: bool)
      requires state == Flags
      modifies this
      ensures Took(AfterFlags(old(AsMachine()), line), ok)
    {
      var f := MatchFields([Digit, Word, Digit], false, line);
      ok := f.Some?;
      if ok {
        StoreFlags(f.value);
      }
    }

    method StoreDirFlags(f: Fields)
      requires |f.values| == 3
      modifies this
      ensures AsMachine() == WithDirFlags(old(AsMachine()), f)
    {
      var e := CurrentExit(AsMachine());
      e := e.(exitInfo := f.values[0]);
      e := e.(key := IntOf(f.values[1]));
      e := e.(toRoom := IntOf(f.values[2]));
      directions := directions[direction := e];
      state := Optional;
    }

    method TakeDirFlags(line: string) returns (ok: bool)
      requires state == DirFlags
      modifies this
      ensures Took(AfterDirFlags(old(AsMachine()), line), ok)
    {
      var f := MatchFields([Word, Signed, Signed], true, line);
      ok := f.Some?;
      if ok {
        StoreDirFlags(f.value);
      }
    }

    method TakeFlow(line: string) returns (ok: bool)
      requires state == FlowLine
      modifies this
      ensures Took(AfterFlow(old(AsMachine()), line), ok)
    {
      var f := FindFields([Signed, Signed, Signed], line);
      ok := f.Some?;
      if ok {
        var v := f.value.values;
        StoreFlow(Flow(IntOf(v[0]), IntOf(v[1]), IntOf(v[2])));
      }
    }

    method StoreFlow(flow: Flow)
      modifies this
      ensures AsMachine() == old(AsMachine()).(state := Optional, room := old(Value()).(flows := old(flows) + [flow]))
    {
      flows := flows + [flow];
      state := Optional;
    }

    method StoreSearchFlags(f: Fields)
      requires |f.values| == 5
      modifies this
      ensures AsMachine() == WithSearchFlags(old(AsMachine()), f)
    {
      var v := f.values;
      var z := search.(command := IntOf(v[0]), arg0 := IntOf(v[1]), arg1 := IntOf(v[2]), arg2 := IntOf(v[3]));
      z := z.(flags := IntOf(v[4]));
      var last := Trailing(Signed, f.rest);
      if last.Some? {
        z := z.(failure := last);
      }
      StoreSearch(z);
    }

    method StoreSearch(z: Search)
      modifies this
      ensures AsMachine() == old(AsMachine()).(state := Optional, search := z,
                room := old(Value()).(searches := old(searches) + [z]))
    {
      search := z;
      searches := searches + [search];
      state := Optional;
    }

    method TakeSearchFlags(line: string) returns (ok: bool)
      requires state == SearchFlags
      modifies this
      ensures Took(AfterSearchFlags(old(AsMachine()), line), ok)
    {
      var f := FindFields([Signed, Signed, Signed, Signed, Signed], line);
      ok := f.Some?;
      if ok {
        StoreSearchFlags(f.value);
      }
    }

    method TakeRoomNum(line: string) returns (stop: Option<LoadResult>)
      requires state == RoomNum
      modifies this
      ensures Answers(AfterRoomNum(old(AsMachine()), line), stop, old(AsMachine()))
    {
      if line == "" || (line[0] != '#' && line[0] != '$') {
        return Some(Raised);
      }
      if line[0] == '$' {
        return Some(False);
      }
      idnum := NatOf(line[1..][..Span(Digit, line[1..])]);
      state := Title;
      return None;
    }

    /** How the answer to a line agrees with the step of the machine: none when the record goes on. */
    ghost predicate Answers(step: LineStep, stop: Option<LoadResult>, before: Machine)
      reads this
    {
      match step
      case Go(m) => stop == None && AsMachine() == m
      case Done => stop == Some(True) && AsMachine() == before
      case End => stop == Some(False) && AsMachine() == before
      case Fail => stop == Some(Raised)
    }

    method TakeLine(line: string) returns (stop: Option<LoadResult>)
      requires ReadsLine(state)
      modifies this
      ensures Answers(AfterLine(old(AsMachine()), line), stop, old(AsMachine()))
    {
      if state == RoomNum {
        stop := TakeRoomNum(line);
      } else if state == Optional {
        stop := TakeOptional(line);
      } else {
        var ok;
        if state == Flags {
          ok := TakeFlags(line);
        } else if state == DirFlags {
          ok := TakeDirFlags(line);
        } else if state == FlowLine {
          ok := TakeFlow(line);
        } else {
          ok := TakeSearchFlags(line);
        }
        stop := if ok then None else Some(Raised);
      }
    }

    /** Fills the room in from the lines of inf until the record is closed. */
    method Load(inf: Input) returns (result: LoadResult)
      requires state == RoomNum
      modifies this, inf
      ensures match Run(old(AsMachine()), old(inf.rest))
              case Loaded(r, rest) => result == True && Value() == r && inf.rest == rest
              case EndMark(rest) => result == False && inf.rest == rest
              case Truncated(m) => result == AtEnd && AsMachine() == m && inf.rest == ""
              case Malformed => result == Raised
    {
      while inf.rest != ""
        invariant Run(AsMachine(), inf.rest) == Run(old(AsMachine()), old(inf.rest))
        decreases |inf.rest|
      {
        var line := inf.Gets();
        if !ReadsLine(state) {
          var text := inf.ReadTildeStr(line);
          TakeTilde(text);
        } else {
          var stop := TakeLine(line);
          if stop.Some? {
            return stop.value;
          }
        }
      }
      result := AtEnd;
    }
  }

  // ---------- The printed form of the parts ----------

  function ExitText(e: Exit): string {
    "D" + Int(e.direction) + "\n" + e.description + "~\n" + e.keywords + "~\n"
    + e.exitInfo + " " + Int(e.key) + " " + Int(e.toRoom) + "\n"
  }

  function HeaderText(r: Room): string {
    "#" + Int(r.idnum) + "\n" + r.title + "~\n" + r.description + "~\n"
    + Int(r.zone) + " " + r.flags + " " + Int(r.sector) + "\n"
  }

  function FlowText(f: Flow): string {
    "F\n" + Int(f.direction) + " " + Int(f.speed) + " " + Int(f.kind) + "\n"
  }

  method SearchToS(z: Search) returns (result: string)
    ensures result == Render(SearchPieces(z))
  {
    result := "Z\n" + z.triggers + "~\n" + z.keywords + "~\n" + z.toVict + "~\n" + z.toRoom + "~\n"
      + z.toRemote + "~\n";
    result := result + (Int(z.command) + " " + Int(z.arg0) + " " + Int(z.arg1) + " " + Int(z.arg2) + " " +
        Int(z.flags));
    if z.failure.Some? {
      result := result + " " + z.failure.value;
    }
    result := result + "\n";
    SearchTextOf(z);
    var v := SearchNumbers(z);
    Joined5(v[0], v[1], v[2], v[3], v[4]);
  }

  lemma ExitsAtIndex(directions: map<int, Exit>, keys: seq<int>)
    requires forall i | 0 <= i < |keys| :: keys[i] in directions
    ensures |ExitsAt(directions, keys)| == |keys|
    ensures forall i | 0 <= i < |keys| :: ExitsAt(directions, keys)[i] == directions[keys[i]]
  {
    if keys != [] {
      ExitsAtIndex(directions, keys[1..]);
    }
  }

  lemma Joined3(a: string, b: string, c: string)
    ensures Joined([a, b, c]) == a + " " + b + " " + c
  {
    assert [a, b, c][1..] == [b, c] && [b, c][1..] == [c];
    assert Joined([b, c]) == b + " " + c;
    Assoc(a + " ", b + " ", c);
    Assoc(a + " ", b, " ");
    Assoc(b, " ", c);
  }

  lemma FlowTextOf(f: Flow)
    ensures Render(FlowPieces(f)) == FlowText(f)
  {
    var a, b, c := Int(f.direction), Int(f.speed), Int(f.kind);
    Joined3(a, b, c);
    Render2(Line("F"), Line(Joined([a, b, c])));
    FlatFlow("F\n", a, b, c);
  }

  lemma FlatFlow(head: string, a: string, b: string, c: string)
    ensures head + (a + " " + b + " " + c + "\n") == head + a + " " + b + " " + c + "\n"
  {
  }

  lemma ExitTextOf(e: Exit)
    ensures Render(ExitPieces(e)) == ExitText(e)
  {
    var a, b, c := e.exitInfo, Int(e.key), Int(e.toRoom);
    var d := Line("D" + Int(e.direction));
    Joined3(a, b, c);
    RenderConcat([d] + ExitTexts(e), [ExitNumbers(e)]);
    RenderConcat([d], ExitTexts(e));
    Render1(d);
    Render2(TildeStr(e.description), TildeStr(e.keywords));
    Render1(ExitNumbers(e));
    Flat2("D" + Int(e.direction) + "\n", e.description, e.keywords);
    Flat3(a, b, c, "D" + Int(e.direction) + "\n" + e.description + "~\n" + e.keywords + "~\n");
  }

  lemma HeaderTextOf(r: Room)
    ensures Render(HeaderPieces(r)) == HeaderText(r)
  {
    var a, b, c := Int(r.zone), r.flags, Int(r.sector);
    var first, last := Line("#" + Int(r.idnum)), Line(Joined([a, b, c]));
    Joined3(a, b, c);
    assert HeaderPieces(r) == [first, TildeStr(r.title)] + [TildeStr(r.description), last];
    RenderConcat([first, TildeStr(r.title)], [TildeStr(r.description), last]);
    Render2(first, TildeStr(r.title));
    Render2(TildeStr(r.description), last);
    Flat4("#" + Int(r.idnum) + "\n", r.title, r.description, a + " " + b + " " + c + "\n");
    Flat3(a, b, c, "#" + Int(r.idnum) + "\n" + r.title + "~\n" + r.description + "~\n");
  }

  lemma Flat4(a: string, b: string, c: string, d: string)
    ensures (a + (b + "~\n")) + ((c + "~\n") + d) == a + b + "~\n" + c + "~\n" + d
  {
  }

  lemma Flat3(a: string, b: string, c: string, before: string)
    ensures before + (a + " " + b + " " + c + "\n") == before + a + " " + b + " " + c + "\n"
  {
  }

  lemma Joined5(a: string, b: string, c: string, d: string, e: string)
    ensures Joined([a, b, c, d, e]) == a + " " + b + " " + c + " " + d + " " + e
  {
    assert [a, b, c, d, e][1..] == [b, c, d, e] && [b, c, d, e][1..] == [c, d, e];
    Joined3(c, d, e);
    assert a + " " + (b + " " + (c + " " + d + " " + e)) == a + " " + b + " " + c + " " + d + " " + e;
  }

  lemma SearchStartOf(z: Search)
    ensures Render([Line("Z")] + SearchTexts(z)) ==
      "Z\n" + (((z.triggers + "~\n") + (z.keywords + "~\n")) + ((z.toVict + "~\n") + (z.toRoom + "~\n")))
  {
    RenderConcat([Line("Z")], SearchTexts(z));
    Render1(Line("Z"));
    Render4(TildeStr(z.triggers), TildeStr(z.keywords), TildeStr(z.toVict), TildeStr(z.toRoom));
  }

  lemma SearchTextOf(z: Search)
    ensures Render(SearchPieces(z))
         == "Z\n" + z.triggers + "~\n" + z.keywords + "~\n" + z.toVict + "~\n" + z.toRoom + "~\n" + z.toRemote + "~\n"
            + (Joined(SearchNumbers(z)) + FailureText(z) + "\n")
  {
    RenderConcat([Line("Z")] + SearchTexts(z), SearchEnd(z));
    SearchStartOf(z);
    Render2(SearchEnd(z)[0], SearchEnd(z)[1]);
    Flat6("Z\n", z.triggers, z.keywords, z.toVict, z.toRoom, z.toRemote,
          Joined(SearchNumbers(z)) + FailureText(z) + "\n");
  }

  lemma Flat6(a: string, b: string, c: string, d: string, e: string, f: string, g: string)
    ensures (a + (((b + "~\n") + (c + "~\n")) + ((d + "~\n") + (e + "~\n")))) + ((f + "~\n") + g)
         == a + b + "~\n" + c + "~\n" + d + "~\n" + e + "~\n" + f + "~\n" + g
  {
    Flat4(a, b, c, (d + "~\n") + (e + "~\n"));
    Flat4(a + b + "~\n" + c + "~\n" , d, e, (f + "~\n") + g);
  }
}
