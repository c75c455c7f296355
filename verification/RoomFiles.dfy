/** What comes of rewriting any room file, whether it is whole, cut off or broken. */
module RoomFiles {
  import opened Text
  import opened Pieces
  import opened Rooms
  import opened RoomRoundTrip
  import opened RoomFixes

  /** How rewriting ends: with all of the file read; with a record closed that the file was cut off in; with
      one given up that was cut off in its header; or at a line that no record allows. */
  datatype Ending = Finished | Closed | Stopped | Broken

  /** What has been written to the new file in the end. */
  datatype Output = Output(text: string, ending: Ending) {
    function After(before: string): Output {
      Output(before + text, ending)
    }
  }

  predicate InHeader(s: State) {
    s.RoomNum? || s.Title? || s.Description? || s.Flags?
  }

  /** What is written of a record that is read so far when the file ends: the loader returns its input, which
      counts as true, so the room is fixed and printed like a whole one. */
  function CutRecord(last: Machine): Output {
    if InHeader(last.state) then Output("", Stopped)
    else Output(RoomText(FixRoom(last.room)) + "$~\n", Closed)
  }

  function Process(s: string): Output
    decreases |s|
  {
    if s == "" then Output("$~\n", Finished)
    else
      match Load(s)
      case Loaded(r, rest) => Process(rest).After(RoomText(FixRoom(r)))
      case EndMark(rest) => Process(rest)
      case Truncated(last) => CutRecord(last)
      case Malformed => Output("", Broken)
  }

  lemma AfterAfter(output: Output, done: string, text: string)
    ensures output.After(text).After(done) == output.After(done + text)
  {
    Text.Assoc(done, text, output.text);
  }

  // ---------- The rooms in the new file ----------

  /** What is written when these rooms have been read, the last of them perhaps in part. */
  function Rewriting(rooms: seq<Room>, ending: Ending): Output {
    Output(FileText(Mapped(rooms, FixRoom)), ending)
  }

  /** What is written when the file is cut off in the header of the record after these rooms. */
  function Stopping(rooms: seq<Room>): Output {
    Output(RoomTexts(Mapped(rooms, FixRoom)), Stopped)
  }

  predicate Written(output: Output, file: FileResult) {
    match file
    case Complete(rooms) => output == Rewriting(rooms, Finished)
    case Cut(rooms, last) =>
      output == if InHeader(last.state) then Stopping(rooms) else Rewriting(rooms + [last.room], Closed)
    case Bad => output.ending == Broken
  }

  lemma FileTextCons(r: Room, rooms: seq<Room>, ending: Ending)
    ensures Rewriting([r] + rooms, ending) == Rewriting(rooms, ending).After(RoomText(FixRoom(r)))
    ensures Stopping([r] + rooms) == Stopping(rooms).After(RoomText(FixRoom(r)))
  {
    var fixed := Mapped(rooms, FixRoom);
    assert Mapped([r] + rooms, FixRoom) == [FixRoom(r)] + fixed;
    assert ([FixRoom(r)] + fixed)[1..] == fixed;
    Text.Assoc(RoomText(FixRoom(r)), RoomTexts(fixed), "$~\n");
  }

  lemma WrittenCons(r: Room, output: Output, file: FileResult)
    requires Written(output, file)
    ensures Written(output.After(RoomText(FixRoom(r))), file.Prepend(r))
  {
    match file
    case Complete(rooms) => FileTextCons(r, rooms, Finished);
    case Cut(rooms, last) =>
      assert [r] + (rooms + [last.room]) == [r] + rooms + [last.room];
      FileTextCons(r, rooms, Closed);
      FileTextCons(r, rooms + [last.room], Closed);
    case Bad =>
  }

  lemma WrittenOne(last: Machine)
    ensures Written(CutRecord(last), Cut([], last))
  {
    assert [] + [last.room] == [last.room];
    FileTextCons(last.room, [], Closed);
    assert "" + "$~\n" == "$~\n";
    assert [last.room] + [] == [last.room];
  }

  lemma ProcessLoaded(s: string)
    requires s != "" && Load(s).Loaded? && Written(Process(Load(s).rest), ReadFile(Load(s).rest))
    ensures Written(Process(s), ReadFile(s))
  {
    var r, output, file := Load(s).room, Process(Load(s).rest), ReadFile(Load(s).rest);
    WrittenCons(r, output, file);
    assert Process(s) == output.After(RoomText(FixRoom(r)));
    assert ReadFile(s) == file.Prepend(r);
  }

  /** What is written of any file: all its rooms, fixed, if it can be read to its end or is cut off after the
      header of its last record, which is then written as if it were whole. */
  lemma {:induction false} ProcessIs(s: string)
    ensures Written(Process(s), ReadFile(s))
    decreases |s|
  {
    if s == "" {
      assert "" + "$~\n" == "$~\n";
    } else {
      match Load(s)
      case Loaded(r, rest) =>
        ProcessIs(rest);
        ProcessLoaded(s);
      case EndMark(rest) => ProcessIs(rest);
      case Truncated(last) => WrittenOne(last);
      case Malformed =>
    }
  }

  /** All of the file is read exactly when it can be rewritten. */
  lemma ProcessFinished(s: string)
    ensures Process(s).ending == Finished <==> Rewritten(s).Some?
    ensures Rewritten(s).Some? ==> Process(s).text == Rewritten(s).value
  {
    ProcessIs(s);
  }

  // ---------- A record that is cut off ----------

  /** An exit has no flags until they are read, and that completes it. */
  predicate ExitOpen(m: Machine) {
    InExit(m) ==> m.direction in m.room.directions && m.room.directions[m.direction].exitInfo == ""
  }

  lemma TildeOpen(m: Machine, t: string)
    requires !ReadsLine(m.state) && ExitOpen(m)
    ensures ExitOpen(AfterTilde(m, t))
  {
  }

  lemma LineOpen(m: Machine, line: string)
    requires ReadsLine(m.state) && ExitOpen(m) && AfterLine(m, line).Go?
    ensures ExitOpen(AfterLine(m, line).m)
  {
  }

  lemma {:induction false} RunCut(m: Machine, s: string)
    requires MachineOk(false, m) && ExitOpen(m) && Run(m, s).Truncated?
    ensures MachineOk(false, Run(m, s).last) && ExitOpen(Run(m, s).last)
    decreases |s|
  {
    if s != "" {
      var next := GetLine(s);
      if !ReadsLine(m.state) {
        var t := ReadTilde(next.line, next.rest);
        AfterTildeOk(false, m, t.line);
        TildeOpen(m, t.line);
        RunCut(AfterTilde(m, t.line), t.rest);
      } else {
        AfterLineOk(false, m, next.line);
        LineOpen(m, next.line);
        RunCut(AfterLine(m, next.line).m, next.rest);
      }
    }
  }

  lemma {:induction false} CutOk(s: string)
    requires ReadFile(s).Cut?
    ensures RoomsOk(false, ReadFile(s).rooms)
    ensures MachineOk(false, ReadFile(s).last) && ExitOpen(ReadFile(s).last)
    decreases |s|
  {
    match Load(s)
    case Loaded(r, rest) =>
      LoadedPlain(s);
      CutOk(rest);
      RoomsOkCons(false, r, ReadFile(rest).rooms);
    case EndMark(rest) => CutOk(rest);
    case Truncated(last) => RunCut(START, s);
  }

  /** The exit that is being read when a record is cut off cannot be read again. */
  lemma OpenExitLost(m: Machine)
    requires MachineOk(false, m) && ExitOpen(m) && InExit(m)
    ensures !RoomOk(false, UnixRoom(FixRoom(m.room)))
  {
    var f := FixRoom(m.room);
    UnixTableRead(f);
    assert UnixRoom(f).directions[m.direction].exitInfo == "";
  }

  lemma OpenExitUnread(rooms: seq<Room>, m: Machine, text: string)
    requires MachineOk(false, m) && ExitOpen(m) && InExit(m)
    ensures ReadFile(text) != Complete(Mapped(Mapped(rooms + [m.room], FixRoom), UnixRoom))
  {
    var all := rooms + [m.room];
    var fixed := Mapped(all, FixRoom);
    MappedSame(all, FixRoom);
    MappedSame(fixed, UnixRoom);
    assert Mapped(fixed, UnixRoom)[|rooms|] == UnixRoom(FixRoom(m.room));
    OpenExitLost(m);
    if ReadFile(text) == Complete(Mapped(fixed, UnixRoom)) {
      ReadFileWellFormed(text);
      assert false;
    }
  }

  lemma MachineRoomOk(m: Machine)
    requires MachineOk(false, m) && !InExit(m)
    ensures RoomOk(false, m.room)
  {
  }

  lemma ClosedRead(rooms: seq<Room>, m: Machine)
    requires RoomsOk(false, rooms) && MachineOk(false, m) && !InExit(m)
    ensures var fixed := Mapped(rooms + [m.room], FixRoom);
      ReadFile(FileText(fixed)) == Complete(Mapped(fixed, UnixRoom))
  {
    var all := rooms + [m.room];
    MachineRoomOk(m);
    assert RoomsOk(false, all);
    MappedFixed(all);
    FileReadBack(Mapped(all, FixRoom));
  }

  /** A file that is cut off after the header of a record becomes one that reads as whole, with what there was
      of the record, exactly when it is not cut off inside an exit. */
  lemma CutReads(s: string)
    requires ReadFile(s).Cut? && !InHeader(ReadFile(s).last.state)
    ensures var rooms := ReadFile(s).rooms + [ReadFile(s).last.room];
      ReadFile(Process(s).text) == Complete(Mapped(Mapped(rooms, FixRoom), UnixRoom)) <==> !InExit(ReadFile(s).last)
  {
    var rooms, last := ReadFile(s).rooms, ReadFile(s).last;
    ProcessIs(s);
    CutOk(s);
    if InExit(last) {
      OpenExitUnread(rooms, last, Process(s).text);
    } else {
      ClosedRead(rooms, last);
    }
  }
}
