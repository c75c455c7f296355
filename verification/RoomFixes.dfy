/** Rooms rewritten: titles in title case, descriptions formatted to fit the screen. */
module RoomFixes {
  import opened Text
  import opened Pieces
  import opened Extradescs
  import opened Wrap
  import opened Titles
  import opened Rooms
  import opened RoomRoundTrip
  import opened Inputs
  import RoomRecord

  // ---------- Pictures made of characters ----------

  /** Three hyphens or three underscores in a row stand at i. */
  predicate ArtAt(s: string, i: nat) {
    i + 3 <= |s| && s[i] == s[i + 1] == s[i + 2] && (s[i] == '-' || s[i] == '_')
  }

  predicate HasArt(s: string) {
    exists i :: 0 <= i < |s| && ArtAt(s, i)
  }

  // ---------- Fixing ----------

  function FixExtradesc(x: Extradesc): Extradesc {
    if HasArt(x.description) then x else x.(description := Formatted(x.description, false))
  }

  function FixExit(e: Exit): Exit {
    e.(description := Formatted(e.description, false))
  }

  function FixExits(directions: map<int, Exit>): map<int, Exit> {
    map d | d in directions :: FixExit(directions[d])
  }

  /** The room after it has been fixed; of a death trap, which has flag b, only the title is. */
  function FixRoom(r: Room): Room {
    var titled := r.(title := Capitalized(r.title));
    if 'b' in r.flags then titled
    else titled.(description := Formatted(r.description, true),
                 sound := if r.sound == "" then "" else Formatted(r.sound, false),
                 extradescs := Mapped(r.extradescs, FixExtradesc),
                 directions := FixExits(r.directions))
  }

  // ---------- Pictures are left alone, and none comes about ----------

  predicate IsArtChar(c: char) {
    c == '-' || c == '_'
  }

  lemma ArtShift(s: string, n: nat, i: nat)
    requires n <= |s|
    ensures ArtAt(s[n..], i) <==> ArtAt(s, n + i)
  {
  }

  lemma ArtPrefix(s: string, n: nat, i: nat)
    requires n <= |s|
    ensures ArtAt(s[..n], i) <==> ArtAt(s, i) && i + 3 <= n
  {
  }

  lemma NoArtAcross(s: string, n: nat, i: nat)
    requires i < n < i + 3 <= |s| && (!IsArtChar(s[n - 1]) || !IsArtChar(s[n]))
    ensures !ArtAt(s, i)
  {
  }

  /** A picture does not extend across a place with another character on one side. */
  lemma ArtApart(s: string, n: nat)
    requires 0 < n <= |s| && (n < |s| ==> !IsArtChar(s[n - 1]) || !IsArtChar(s[n]))
    ensures HasArt(s) <==> HasArt(s[..n]) || HasArt(s[n..])
  {
    if HasArt(s) {
      var i: nat :| ArtAt(s, i);
      if i + 3 <= n {
        ArtPrefix(s, n, i);
      } else if n <= i {
        ArtShift(s, n, i - n);
      } else {
        NoArtAcross(s, n, i);
      }
    }
    if HasArt(s[..n]) {
      var i: nat :| ArtAt(s[..n], i);
      ArtPrefix(s, n, i);
    }
    if HasArt(s[n..]) {
      var i: nat :| ArtAt(s[n..], i);
      ArtShift(s, n, i);
    }
  }

  lemma TokenEnd(s: string)
    requires s != "" && !IsSpace(s[0])
    ensures var n := TokenLength(s); 0 < n <= |s| && (n < |s| ==> !IsArtChar(s[n - 1]) || !IsArtChar(s[n]))
  {
    var p, n := Span(Plain, s), TokenLength(s);
    if p < n {
      var k := Span(Stop, s[p..]);
      assert !IsArtChar(s[n - 1]) by {
        if n == p + k {
          assert Stop.Has(s[p..][k - 1]);
        }
      }
    } else if n < |s| {
      assert !Plain.Has(s[n]) && !IsArtChar(s[n]);
    }
  }

  predicate AnyArt(ws: seq<string>) {
    exists k :: 0 <= k < |ws| && HasArt(ws[k])
  }

  lemma AnyArtCons(w: string, ws: seq<string>)
    ensures AnyArt([w] + ws) <==> HasArt(w) || AnyArt(ws)
  {
    var all := [w] + ws;
    if HasArt(w) {
      assert HasArt(all[0]);
    }
    if AnyArt(ws) {
      var k :| 0 <= k < |ws| && HasArt(ws[k]);
      assert HasArt(all[k + 1]);
    }
  }

  /** A picture is always within one token. */
  lemma {:induction false} ArtInTokens(s: string)
    ensures HasArt(s) <==> AnyArt(Tokens(s))
    decreases |s|
  {
    if s != "" {
      if IsSpace(s[0]) {
        ArtInTokens(s[1..]);
        ArtApart(s, 1);
      } else {
        var n := TokenLength(s);
        TokenEnd(s);
        ArtApart(s, n);
        ArtInTokens(s[n..]);
        AnyArtCons(s[..n], Tokens(s[n..]));
      }
    }
  }

  lemma {:induction false} KeptArt(ws: seq<string>, last: string)
    ensures AnyArt(Kept(ws, last)) ==> AnyArt(ws)
    decreases |ws|
  {
    if ws != [] {
      var w, more := ws[0], ws[1..];
      assert ws == [w] + more;
      KeptArt(more, if w == "very" || w == last then last else w);
      AnyArtCons(w, more);
      AnyArtCons(w, Kept(more, w));
    }
  }

  lemma NoArtFormatted(s: string, indent: bool)
    requires !HasArt(s)
    ensures !HasArt(Formatted(s, indent))
  {
    ArtInTokens(s);
    ArtInTokens(Formatted(s, indent));
    TokensFormatted(s, indent);
    KeptArt(Tokens(s), "");
  }

  // ---------- Fixing twice ----------

  lemma FixExtradescTwice(x: Extradesc)
    ensures FixExtradesc(FixExtradesc(x)) == FixExtradesc(x)
  {
    if !HasArt(x.description) {
      NoArtFormatted(x.description, false);
      FormatAgain(x.description, false, false);
    }
  }

  lemma FixExtradescsTwice(xs: seq<Extradesc>)
    ensures Mapped(Mapped(xs, FixExtradesc), FixExtradesc) == Mapped(xs, FixExtradesc)
  {
    var ys := Mapped(xs, FixExtradesc);
    MappedSame(xs, FixExtradesc);
    MappedSame(ys, FixExtradesc);
    forall i | 0 <= i < |ys| ensures FixExtradesc(ys[i]) == ys[i] {
      FixExtradescTwice(xs[i]);
    }
  }

  lemma SameMap<K, V>(a: map<K, V>, b: map<K, V>)
    requires (forall k :: k in a <==> k in b) && forall k | k in a :: a[k] == b[k]
    ensures a == b
  {
  }

  lemma FixExitsTwice(directions: map<int, Exit>)
    ensures FixExits(FixExits(directions)) == FixExits(directions)
  {
    var once := FixExits(directions);
    forall d | d in once ensures FixExit(once[d]) == once[d] {
      FormatAgain(directions[d].description, false, false);
    }
    SameMap(FixExits(once), once);
  }

  /** A room that has been fixed stays as it is. */
  lemma FixRoomTwice(r: Room)
    ensures FixRoom(FixRoom(r)) == FixRoom(r)
  {
    CapitalizedTwice(r.title);
    FormatAgain(r.description, true, true);
    FormatAgain(r.sound, false, false);
    FixExtradescsTwice(r.extradescs);
    FixExitsTwice(r.directions);
    assert Formatted(r.sound, false) != "";
  }

  // ---------- What is fixed ----------

  /** The text is laid out to fit the screen and has the words of another that are to be kept. */
  predicate LaidFrom(t: string, indent: bool, original: string) {
    WellLaid(indent, Stretches(t)) && Tokens(t) == Kept(Tokens(original), "")
  }

  lemma LaidOutFrom(original: string, indent: bool)
    ensures LaidFrom(Formatted(original, indent), indent, original)
  {
    FormattedLayout(original, indent);
    TokensFormatted(original, indent);
  }

  /** In a fixed room the title is in title case; unless it is a death trap, its description is laid out with an
      indented first line, and without one its sound, if it has any, the descriptions of all exits and the extra
      descriptions that are no pictures; and nothing else has changed. */
  lemma FixedTexts(r: Room)
    ensures var f := FixRoom(r);
      && f.title == Capitalized(r.title)
      && f == r.(title := f.title, description := f.description, sound := f.sound, extradescs := f.extradescs,
                 directions := f.directions)
      && if 'b' in r.flags then f == r.(title := f.title)
         else
           && LaidFrom(f.description, true, r.description)
           && (if r.sound == "" then f.sound == "" else LaidFrom(f.sound, false, r.sound))
           && ExtradescsFixed(r.extradescs, f.extradescs) && ExitsFixed(r.directions, f.directions)
  {
    if 'b' !in r.flags {
      LaidOutFrom(r.description, true);
      LaidOutFrom(r.sound, false);
      FixedExtradescs(r.extradescs);
      FixedExits(r.directions);
    }
  }

  predicate ExtradescsFixed(xs: seq<Extradesc>, ys: seq<Extradesc>) {
    |xs| == |ys| && forall i | 0 <= i < |xs| :: ExtradescFixed(xs[i], ys[i])
  }

  lemma FixedExtradescs(xs: seq<Extradesc>)
    ensures ExtradescsFixed(xs, Mapped(xs, FixExtradesc))
  {
    MappedSame(xs, FixExtradesc);
    forall i | 0 <= i < |xs| ensures ExtradescFixed(xs[i], FixExtradesc(xs[i])) {
      LaidOutFrom(xs[i].description, false);
    }
  }

  predicate ExitsFixed(directions: map<int, Exit>, fixed: map<int, Exit>) {
    && directions.Keys == fixed.Keys
    && forall d | d in directions :: ExitFixed(directions[d], fixed[d])
  }

  lemma FixedExits(directions: map<int, Exit>)
    ensures ExitsFixed(directions, FixExits(directions))
  {
    forall d | d in directions ensures ExitFixed(directions[d], FixExits(directions)[d]) {
      LaidOutFrom(directions[d].description, false);
    }
  }

  predicate ExtradescFixed(x: Extradesc, y: Extradesc) {
    && y.keywords == x.keywords
    && if HasArt(x.description) then y == x else LaidFrom(y.description, false, x.description)
  }

  predicate ExitFixed(e: Exit, f: Exit) {
    LaidFrom(f.description, false, e.description) && f == e.(description := f.description)
  }

  // ---------- Fixed rooms can be represented ----------

  lemma FixExtradescOk(strict: bool, x: Extradesc)
    requires ExtradescOk(strict, x)
    ensures ExtradescOk(strict, FixExtradesc(x))
  {
    FormattedClean(x.description, false);
  }

  lemma FixListsOk(strict: bool, r: Room)
    requires ListsOk(strict, r)
    ensures ListsOk(strict, r.(extradescs := Mapped(r.extradescs, FixExtradesc)))
  {
    MappedSame(r.extradescs, FixExtradesc);
    forall i | 0 <= i < |r.extradescs| ensures ExtradescOk(strict, FixExtradesc(r.extradescs[i])) {
      FixExtradescOk(strict, r.extradescs[i]);
    }
  }

  lemma FixExitsOk(strict: bool, directions: map<int, Exit>)
    requires forall d | d in directions :: directions[d].direction == d && ExitOk(strict, directions[d])
    ensures forall d | d in FixExits(directions) ::
      FixExits(directions)[d].direction == d && ExitOk(strict, FixExits(directions)[d])
  {
    forall d | d in directions ensures ExitOk(strict, FixExit(directions[d])) {
      FormattedClean(directions[d].description, false);
    }
  }

  lemma FixRestOk(strict: bool, r: Room)
    requires RoomOk(strict, r)
    ensures RoomOk(strict, FixRoom(r).(title := r.title))
  {
    FormattedClean(r.description, true);
    FormattedClean(r.sound, false);
    FixListsOk(strict, r);
    FixExitsOk(strict, r.directions);
  }

  lemma TitleOk(strict: bool, r: Room, title: string)
    requires RoomOk(strict, r)
    ensures RoomOk(strict, r.(title := title)) <==> TextOk(strict, title)
  {
  }

  /** Fixing brings in no tilde, and a carriage return before a newline only by taking full stops from
      between them in the title. */
  lemma FixRoomOk(r: Room)
    requires RoomOk(false, r)
    ensures RoomOk(false, FixRoom(r))
    ensures WellFormed(r) ==> (WellFormed(FixRoom(r)) <==> !CrDotsLf(r.title))
  {
    var rest := FixRoom(r).(title := r.title);
    assert rest.(title := Capitalized(r.title)) == FixRoom(r);
    CapitalizedCarried(r.title);
    FixRestOk(false, r);
    TitleOk(false, rest, Capitalized(r.title));
    if WellFormed(r) {
      FixRestOk(true, r);
      TitleOk(true, rest, Capitalized(r.title));
    }
  }

  // ---------- Rewriting files ----------

  /** The file with all rooms fixed, if it can be read to its end. */
  function Rewritten(s: string): Option<string> {
    match ReadFile(s)
    case Complete(rooms) => Some(FileText(Mapped(rooms, FixRoom)))
    case _ => None
  }

  lemma MappedFixed(rooms: seq<Room>)
    requires RoomsOk(false, rooms)
    ensures RoomsOk(false, Mapped(rooms, FixRoom))
  {
    MappedSame(rooms, FixRoom);
    forall i | 0 <= i < |rooms| ensures RoomOk(false, FixRoom(rooms[i])) {
      FixRoomOk(rooms[i]);
    }
  }

  predicate TitlesOk(rooms: seq<Room>) {
    forall i | 0 <= i < |rooms| :: !CrDotsLf(rooms[i].title)
  }

  lemma FixWellFormed(r: Room)
    requires RoomOk(true, r)
    ensures RoomOk(true, FixRoom(r)) <==> !CrDotsLf(r.title)
  {
    assert WellFormed(r);
    FixRoomOk(r);
    assert WellFormed(FixRoom(r)) <==> RoomOk(true, FixRoom(r));
  }

  lemma MappedWellFormed(rooms: seq<Room>)
    requires RoomsOk(true, rooms)
    ensures RoomsOk(true, Mapped(rooms, FixRoom)) <==> TitlesOk(rooms)
  {
    var fixed := Mapped(rooms, FixRoom);
    MappedSame(rooms, FixRoom);
    forall i | 0 <= i < |rooms| ensures RoomOk(true, fixed[i]) <==> !CrDotsLf(rooms[i].title) {
      FixWellFormed(rooms[i]);
    }
  }

  lemma FixedRoomsOk(s: string)
    requires ReadFile(s).Complete?
    ensures var rooms := ReadFile(s).rooms; var fixed := Mapped(rooms, FixRoom);
      RoomsOk(false, fixed) && (SingleCr(s) ==> (RoomsOk(true, fixed) <==> TitlesOk(rooms)))
  {
    ReadFileWellFormed(s);
    MappedFixed(ReadFile(s).rooms);
    if SingleCr(s) {
      MappedWellFormed(ReadFile(s).rooms);
    }
  }

  /** No title of the file has only full stops between a carriage return and a newline. */
  predicate TitlesKept(s: string)
    requires ReadFile(s).Complete?
  {
    TitlesOk(ReadFile(s).rooms)
  }

  /** Whatever file can be rewritten, the new one reads as the fixed rooms with their line ends normalised,
      and as just the fixed rooms exactly when these are well formed; of a file with single carriage returns,
      exactly when the titles allow. */
  lemma RewrittenReads(s: string)
    requires Rewritten(s).Some?
    ensures var fixed := Mapped(ReadFile(s).rooms, FixRoom);
      && ReadFile(Rewritten(s).value) == Complete(Mapped(fixed, UnixRoom))
      && (ReadFile(Rewritten(s).value) == Complete(fixed) <==> RoomsOk(true, fixed))
      && (SingleCr(s) ==> (RoomsOk(true, fixed) <==> TitlesKept(s)))
  {
    var fixed := Mapped(ReadFile(s).rooms, FixRoom);
    FixedRoomsOk(s);
    FileReadBack(fixed);
    FileRoundTripIff(fixed);
  }

  lemma MappedTwice(rooms: seq<Room>)
    ensures Mapped(Mapped(rooms, FixRoom), FixRoom) == Mapped(rooms, FixRoom)
  {
    var fixed := Mapped(rooms, FixRoom);
    MappedSame(rooms, FixRoom);
    MappedSame(fixed, FixRoom);
    forall i | 0 <= i < |fixed| ensures FixRoom(fixed[i]) == fixed[i] {
      FixRoomTwice(rooms[i]);
    }
  }

  // ---------- Line ends normalised between two rewritings ----------

  lemma DroppedCrArt(line: string)
    ensures HasArt(DropCr(line)) <==> HasArt(line)
  {
    var n := |line|;
    if EndsInCr(line) {
      assert DropCr(line) == line[..n - 1];
      if n > 1 {
        ArtApart(line, n - 1);
      }
    }
  }

  lemma LineArt(line: string, more: string)
    ensures HasArt(line + "\n" + more) <==> HasArt(line) || HasArt(more)
  {
    var s, n := line + "\n" + more, |line|;
    assert s[..n] == line && s[n..] == "\n" + more && s[n..][1..] == more;
    ArtApart(s[n..], 1);
    if n > 0 {
      ArtApart(s, n);
    }
  }

  lemma UnixLineArt(line: string, more: string)
    requires '\n' !in line && (HasArt(Unix(more)) <==> HasArt(more))
    ensures HasArt(Unix(line + "\n" + more)) <==> HasArt(line + "\n" + more)
  {
    UnixOfLines(line, more);
    LineArt(line, more);
    DroppedCrArt(line);
    LineArt(DropCr(line), Unix(more));
  }

  lemma {:induction false} UnixArt(t: string)
    ensures HasArt(Unix(t)) <==> HasArt(t)
    decreases |t|
  {
    if '\n' in t {
      var line, more := FirstLine(t);
      UnixArt(more);
      UnixLineArt(line, more);
    } else {
      UnixOfLine(t);
    }
  }

  lemma UnixFormatted(original: string, indent: bool)
    requires '~' !in original
    ensures var t := Formatted(original, indent); Unix(t) == t && Formatted(t, indent) == t
  {
    FormattedClean(original, indent);
    FormatAgain(original, indent, indent);
  }

  lemma UnixFixedExtradesc(x: Extradesc)
    requires ExtradescOk(false, x)
    ensures var u := UnixExtradesc(FixExtradesc(x)); FixExtradesc(u) == u
  {
    if HasArt(x.description) {
      UnixArt(x.description);
    } else {
      UnixFormatted(x.description, false);
    }
  }

  lemma UnixFixedExtradescs(xs: seq<Extradesc>)
    requires forall i | 0 <= i < |xs| :: ExtradescOk(false, xs[i])
    ensures var us := Mapped(Mapped(xs, FixExtradesc), UnixExtradesc); Mapped(us, FixExtradesc) == us
  {
    var us := Mapped(Mapped(xs, FixExtradesc), UnixExtradesc);
    MappedSame(xs, FixExtradesc);
    MappedSame(Mapped(xs, FixExtradesc), UnixExtradesc);
    MappedSame(us, FixExtradesc);
    forall i | 0 <= i < |us| ensures FixExtradesc(us[i]) == us[i] {
      UnixFixedExtradesc(xs[i]);
    }
  }

  lemma UnixFixedExits(directions: map<int, Exit>)
    requires forall d | d in directions :: ExitOk(false, directions[d])
    ensures var us := UnixTable(FixExits(directions)); FixExits(us) == us
  {
    var us := UnixTable(FixExits(directions));
    forall d | d in us ensures FixExit(us[d]) == us[d] {
      UnixFormatted(directions[d].description, false);
    }
    SameMap(FixExits(us), us);
  }

  /** Of a fixed room whose line ends have been normalised, fixing changes the title at most. */
  lemma FixUnixRoom(r: Room)
    requires RoomOk(false, r)
    ensures var u := UnixRoom(FixRoom(r)); FixRoom(u) == u.(title := Capitalized(u.title))
  {
    if 'b' !in r.flags {
      FixRoomOk(r);
      UnixTableRead(FixRoom(r));
      UnixFormatted(r.description, true);
      UnixFormatted(r.sound, false);
      UnixFixedExtradescs(r.extradescs);
      UnixFixedExits(r.directions);
    }
  }

  lemma FixedText(r: Room)
    requires RoomOk(false, r)
    ensures var f := FixRoom(r); var again := RoomText(FixRoom(UnixRoom(f)));
      |again| <= |RoomText(f)| && (|again| == |RoomText(f)| ==> WellFormed(f))
  {
    var f := FixRoom(r);
    var u := UnixRoom(f);
    FixRoomOk(r);
    FixUnixRoom(r);
    UnixRoomShorter(f);
    TitleLength(u, Capitalized(u.title));
    CasedShape(StripDots(u.title), true);
  }

  lemma {:induction false} TextsShorter(again: seq<Room>, rooms: seq<Room>)
    requires |again| == |rooms|
    requires forall i | 0 <= i < |rooms| :: |RoomText(again[i])| <= |RoomText(rooms[i])|
    ensures |RoomTexts(again)| <= |RoomTexts(rooms)|
    ensures |RoomTexts(again)| == |RoomTexts(rooms)| ==>
      forall i | 0 <= i < |rooms| :: |RoomText(again[i])| == |RoomText(rooms[i])|
    decreases |rooms|
  {
    if rooms != [] {
      TextsShorter(again[1..], rooms[1..]);
    }
  }

  /** Rooms fixed once, and fixed again after their line ends have been normalised. */
  lemma SameTexts(rooms: seq<Room>, fixed: seq<Room>, again: seq<Room>)
    requires |fixed| == |rooms| && |again| == |rooms|
    requires RoomsOk(false, rooms) && forall i | 0 <= i < |rooms| :: fixed[i] == FixRoom(rooms[i])
    requires forall i | 0 <= i < |rooms| :: again[i] == FixRoom(UnixRoom(fixed[i]))
    requires |RoomTexts(again)| == |RoomTexts(fixed)|
    ensures RoomsOk(true, fixed)
  {
    forall i | 0 <= i < |rooms|
      ensures |RoomText(again[i])| <= |RoomText(fixed[i])|
      ensures |RoomText(again[i])| == |RoomText(fixed[i])| ==> WellFormed(fixed[i])
    {
      FixedText(rooms[i]);
    }
    TextsShorter(again, fixed);
  }

  lemma FixedAgain(rooms: seq<Room>)
    ensures var fixed := Mapped(rooms, FixRoom); var again := Mapped(Mapped(fixed, UnixRoom), FixRoom);
      && |fixed| == |rooms| && |again| == |rooms|
      && (forall i | 0 <= i < |rooms| :: fixed[i] == FixRoom(rooms[i]))
      && forall i | 0 <= i < |rooms| :: again[i] == FixRoom(UnixRoom(fixed[i]))
  {
    var fixed := Mapped(rooms, FixRoom);
    MappedSame(rooms, FixRoom);
    MappedSame(fixed, UnixRoom);
    MappedSame(Mapped(fixed, UnixRoom), FixRoom);
  }

  /** Rewriting a rewritten file changes nothing exactly when the rooms were well formed once fixed: else a
      carriage return goes that the first rewriting has left before a newline. Of a file with single
      carriage returns, only the titles decide. */
  lemma RewrittenTwice(s: string)
    requires Rewritten(s).Some?
    ensures Rewritten(Rewritten(s).value) == Rewritten(s) <==> RoomsOk(true, Mapped(ReadFile(s).rooms, FixRoom))
    ensures SingleCr(s) ==> (Rewritten(Rewritten(s).value) == Rewritten(s) <==> TitlesKept(s))
  {
    var rooms := ReadFile(s).rooms;
    RewrittenReads(s);
    if RoomsOk(true, Mapped(rooms, FixRoom)) {
      MappedTwice(rooms);
    } else if Rewritten(Rewritten(s).value) == Rewritten(s) {
      ReadFileWellFormed(s);
      FixedAgain(rooms);
      var fixed := Mapped(rooms, FixRoom);
      SameTexts(rooms, fixed, Mapped(Mapped(fixed, UnixRoom), FixRoom));
    }
  }

  lemma DotsKept(r: Room)
    requires WellFormed(r) && CrDotsLf(r.title)
    ensures Mapped([r], FixRoom) == [FixRoom(r)] && !RoomsOk(true, [FixRoom(r)])
  {
    FixRoomOk(r);
    MappedSame([r], FixRoom);
    RoomsOkCons(true, FixRoom(r), []);
    assert [FixRoom(r)] + [] == [FixRoom(r)];
  }

  /** The file of one room with full stops between a carriage return and a newline in its title: once
      rewritten it does not read as the fixed room, and rewriting it once more changes it. */
  lemma DotsDropped(r: Room)
    requires WellFormed(r) && CrDotsLf(r.title)
    ensures var s := FileText([r]);
      && ReadFile(s) == Complete([r]) && Rewritten(s).Some?
      && ReadFile(Rewritten(s).value) != Complete([FixRoom(r)])
      && Rewritten(Rewritten(s).value) != Rewritten(s)
  {
    assert RoomsOk(true, [r]);
    FileRoundTrip([r]);
    DotsKept(r);
    RewrittenReads(FileText([r]));
    RewrittenTwice(FileText([r]));
  }

  lemma CrDotsLfIn(a: string, b: string)
    ensures CrDotsLf(a + "\r.\n" + b)
  {
    var s := a + "\r.\n" + b;
    var after := s[|a| + 1..];
    assert after == ".\n" + b && after[1..] == "\n" + b;
    assert CrDotsLfAt(s, |a|);
  }

  /** A room of title t that can be represented. */
  function TitledRoom(t: string): Room {
    NEW_ROOM.(title := t)
  }

  lemma DottedOk(t: string)
    requires t == "a" + "\r.\n" + "b"
    ensures WellFormed(TitledRoom(t)) && CrDotsLf(t)
  {
    CrDotsLfIn("a", "b");
  }

  /** Such a room: its title is an a, a carriage return, a full stop, a newline and a b. */
  lemma DottedTitle(t: string)
    requires t == "a" + "\r.\n" + "b"
    ensures var s := FileText([TitledRoom(t)]);
      && ReadFile(s) == Complete([TitledRoom(t)]) && Rewritten(s).Some?
      && ReadFile(Rewritten(s).value) != Complete([FixRoom(TitledRoom(t))])
      && Rewritten(Rewritten(s).value) != Rewritten(s)
  {
    DottedOk(t);
    DotsDropped(TitledRoom(t));
  }
}
