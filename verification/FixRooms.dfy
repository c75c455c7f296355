/** The loop that rewrites a room file, fixing each room object in place before it is printed. */
module FixRooms {
  import opened Text
  import opened Pieces
  import opened Extradescs
  import opened Inputs
  import opened Rooms
  import opened RoomRecord
  import opened RoomRoundTrip
  import opened RoomFixes
  import opened RoomFiles
  import Titles
  import Wrap

  /** Fixes the extra descriptions that are not pictures. */
  method FixExtradescs(extradescs: seq<Extradesc>) returns (fixed: seq<Extradesc>)
    ensures fixed == Mapped(extradescs, FixExtradesc)
  {
    MappedSame(extradescs, FixExtradesc);
    fixed := extradescs;
    for i := 0 to |extradescs|
      invariant |fixed| == |extradescs|
      invariant forall k | 0 <= k < i :: fixed[k] == FixExtradesc(extradescs[k])
      invariant forall k | i <= k < |fixed| :: fixed[k] == extradescs[k]
    {
      if !HasArt(fixed[i].description) {
        var description := Wrap.FormatDesc(fixed[i].description, false);
        fixed := fixed[i := fixed[i].(description := description)];
      }
    }
  }

  lemma {:induction false} InSetOf(keys: seq<int>, k: int)
    ensures k in SetOf(keys) <==> k in keys
    decreases |keys|
  {
    if keys != [] {
      InSetOf(keys[1..], k);
    }
  }

  /** Fixes the description of every exit. */
  method FixDirections(directions: map<int, Exit>) returns (fixed: map<int, Exit>)
    ensures fixed == FixExits(directions)
  {
    var keys := SortedKeys(directions.Keys);
    SortedKeysAll(directions.Keys);
    fixed := directions;
    for i := 0 to |keys|
      invariant forall d :: d in fixed <==> d in directions
      invariant forall d | d in directions ::
        fixed[d] == if d in keys[..i] then FixExit(directions[d]) else directions[d]
    {
      assert keys[..i + 1] == keys[..i] + [keys[i]];
      assert keys[i] !in keys[..i];
      var description := Wrap.FormatDesc(fixed[keys[i]].description, false);
      fixed := fixed[keys[i] := fixed[keys[i]].(description := description)];
    }
    forall d | d in directions ensures fixed[d] == FixExit(directions[d]) {
      InSetOf(keys, d);
      assert keys[..|keys|] == keys;
    }
    forall d ensures d in fixed <==> d in FixExits(directions) {
    }
    SameMap(fixed, FixExits(directions));
  }

  method FixTexts(room: RoomRecord)
    modifies room`description, room`sound
    ensures room.description == Wrap.Formatted(old(room.description), true)
    ensures room.sound == if old(room.sound) == "" then "" else Wrap.Formatted(old(room.sound), false)
  {
    var description := Wrap.FormatDesc(room.description, true);
    var sound := room.sound;
    if sound != "" {
      sound := Wrap.FormatDesc(sound, false);
    }
    room.description, room.sound := description, sound;
  }

  method FixRecord(room: RoomRecord)
    modifies room
    ensures room.Value() == FixRoom(old(room.Value()))
  {
    ghost var was := room.Value();
    var title := Titles.Capitalize(room.title);
    room.title := title;
    if 'b' in room.flags {
      return;
    }
    FixBody(room);
  }

  method FixBody(room: RoomRecord)
    requires 'b' !in room.flags
    modifies room`description, room`sound, room`extradescs, room`directions
    ensures room.Value() == FixRoom(old(room.Value())).(title := old(room.title))
  {
    ghost var was := room.Value();
    FixTexts(room);
    FixParts(room);
    FixedBody(was, room.Value());
  }

  lemma FixedBody(r: Room, f: Room)
    requires 'b' !in r.flags
    requires f.description == Wrap.Formatted(r.description, true)
    requires f.sound == if r.sound == "" then "" else Wrap.Formatted(r.sound, false)
    requires f.extradescs == Mapped(r.extradescs, FixExtradesc) && f.directions == FixExits(r.directions)
    requires f.(description := r.description, sound := r.sound, extradescs := r.extradescs,
                directions := r.directions) == r
    ensures f == FixRoom(r).(title := r.title)
  {
  }

  method FixParts(room: RoomRecord)
    modifies room`extradescs, room`directions
    ensures room.extradescs == Mapped(old(room.extradescs), FixExtradesc)
    ensures room.directions == FixExits(old(room.directions))
  {
    var extradescs := FixExtradescs(room.extradescs);
    var directions := FixDirections(room.directions);
    room.extradescs, room.directions := extradescs, directions;
  }

  /** Rewrites a file room by room; a record that is cut off after its header is closed as if it were
      whole. */
  method ProcessFile(inf: Input) returns (output: Output)
    modifies inf
    ensures output == Process(old(inf.rest))
  {
    var ouf := "";
    ghost var whole := Process(inf.rest);
    assert "" + whole.text == whole.text;
    while inf.rest != ""
      invariant Process(inf.rest).After(ouf) == whole
      decreases |inf.rest|
    {
      var room := new RoomRecord();
      var loaded := room.Load(inf);
      match loaded
      case True =>
        FixRecord(room);
        var printed := room.ToS();
        AfterAfter(Process(inf.rest), ouf, printed);
        ouf := ouf + printed;
      case False =>
      case AtEnd =>
        output := CloseFile(room, ouf);
        return;
      case Raised =>
        assert ouf + "" == ouf;
        return Output(ouf, Broken);
    }
    output := Output(ouf + "$~\n", Finished);
  }

  /** What comes of a record that the file ends in. */
  method CloseFile(room: RoomRecord, ouf: string) returns (output: Output)
    modifies room
    ensures output == CutRecord(old(room.AsMachine())).After(ouf)
  {
    if InHeader(room.state) {
      assert ouf + "" == ouf;
      return Output(ouf, Stopped);
    }
    FixRecord(room);
    var printed := room.ToS();
    Text.Assoc(ouf, printed, "$~\n");
    output := Output(ouf + printed + "$~\n", Closed);
  }
}
