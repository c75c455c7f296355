/** The line, tilde-string and number conventions shared by the room and object files.

    Text is a sequence of characters. A reader takes one line at a time, strips its line end, and
    matches fields against it; the functions below say what each such step yields, and the lemmas
    say when a printed field is read back unchanged. */
module Text {

  datatype Option<+T> = None | Some(value: T)

  // ---------- Runs of characters ----------

  predicate IsSpace(c: char) {
    c == ' ' || c == '\t' || c == '\r' || c == '\n' || c == '\U{0B}' || c == '\U{0C}'
  }

  predicate IsStop(c: char) {
    c == '.' || c == '?' || c == '!' || c == ';'
  }

  /** The character classes that the record formats use. */
  datatype CharClass = Digit | Signed | Decimal | Word | Space | LineBody | Stop | Plain {
    predicate Has(c: char) {
      match this
      case Digit => '0' <= c <= '9'
      case Signed => '0' <= c <= '9' || c == '-'
      case Decimal => '0' <= c <= '9' || c == '.'
      case Word => !IsSpace(c)
      case Space => IsSpace(c)
      case LineBody => c != '\n'
      case Stop => IsStop(c)
      case Plain => !IsSpace(c) && !IsStop(c)
    }

    predicate All(s: string) {
      forall i | 0 <= i < |s| :: Has(s[i])
    }
  }

  /** The length of the longest prefix of s whose characters are all in cls. */
  function Span(cls: CharClass, s: string): (n: nat)
    ensures n <= |s|
    ensures forall i | 0 <= i < n :: cls.Has(s[i])
    ensures n < |s| ==> !cls.Has(s[n])
    ensures cls.All(s[..n])
  {
    if s == "" || !cls.Has(s[0]) then 0 else 1 + Span(cls, s[1..])
  }

  lemma SpanUnique(cls: CharClass, s: string, n: nat)
    requires n <= |s|
    requires forall i | 0 <= i < n :: cls.Has(s[i])
    requires n < |s| ==> !cls.Has(s[n])
    ensures Span(cls, s) == n
  {
  }

  lemma Assoc(a: string, b: string, c: string)
    ensures a + b + c == a + (b + c)
  {
  }

  // ---------- Lines ----------

  datatype Split = Split(line: string, rest: string)

  /** A line end is a newline, a carriage return, or the two in that order; one of them is dropped. */
  function DropCr(body: string): string {
    if body != "" && body[|body| - 1] == '\r' then body[..|body| - 1] else body
  }

  function GetLine(s: string): (r: Split)
    requires s != ""
    ensures |r.rest| < |s|
    ensures '\n' !in r.line
    ensures r.rest == s[|s| - |r.rest|..]
  {
    var n := Span(LineBody, s);
    assert '\n' !in s[..n];
    Split(DropCr(s[..n]), if n < |s| then s[n + 1..] else "")
  }

  /** A printed line comes back whole, unless it ended in a carriage return. */
  lemma GetPrintedLine(line: string, rest: string)
    requires '\n' !in line
    ensures GetLine(line + "\n" + rest) == Split(DropCr(line), rest)
  {
    var s := line + "\n" + rest;
    assert s[..|line|] == line;
    assert s[|line|] == '\n';
    assert s[|line| + 1..] == rest;
    SpanUnique(LineBody, s, |line|);
  }

  // ---------- Tilde strings ----------

  /** What remains of s without its tildes. */
  function StripTildes(s: string): (r: string)
    ensures '~' !in r
    ensures '~' !in s ==> r == s
    ensures |r| <= |s|
  {
    if s == "" then ""
    else if s[0] == '~' then StripTildes(s[1..])
    else
      assert '~' !in s ==> '~' !in s[1..];
      [s[0]] + StripTildes(s[1..])
  }

  lemma StripTildesConcat(a: string, b: string)
    ensures StripTildes(a + b) == StripTildes(a) + StripTildes(b)
  {
    if a == "" {
      assert a + b == b;
    } else {
      assert (a + b)[1..] == a[1..] + b;
      StripTildesConcat(a[1..], b);
    }
  }

  /** Lines are collected until one holds a tilde or the text ends. */
  function CollectToTilde(acc: string, s: string): (r: Split)
    ensures |r.rest| <= |s|
    decreases |s|
  {
    if '~' in acc || s == "" then Split(acc, s)
    else
      var next := GetLine(s);
      CollectToTilde(acc + "\n" + next.line, next.rest)
  }

  /** The tilde string that starts with a line already taken from the text. */
  function ReadTilde(first: string, s: string): (r: Split)
    ensures |r.rest| <= |s|
    ensures '~' !in r.line
  {
    var collected := CollectToTilde(first, s);
    Split(StripTildes(collected.line), collected.rest)
  }

  /** The same, taking the first line too. */
  function ReadTildeField(s: string): (r: Split)
    requires s != ""
    ensures |r.rest| < |s|
  {
    var first := GetLine(s);
    ReadTilde(first.line, first.rest)
  }

  /** No carriage return stands just before a newline. */
  predicate NoCrLf(t: string) {
    forall i | 0 <= i && i + 1 < |t| :: !(t[i] == '\r' && t[i + 1] == '\n')
  }

  /** The texts that a tilde string can carry. */
  predicate Carried(t: string) {
    TextOk(true, t)
  }

  /** Without tildes; and, where line ends are not to be disturbed, without a carriage return before a
      newline. */
  predicate TextOk(strict: bool, t: string) {
    '~' !in t && (strict ==> NoCrLf(t))
  }

  /** t with each carriage return that stands just before a newline dropped. */
  function Unix(t: string): (r: string)
    ensures |r| <= |t|
    ensures NoCrLf(t) <==> r == t
  {
    var n := Span(LineBody, t);
    if n == |t| then
      assert forall i | 0 <= i < |t| :: t[..n][i] == t[i];
      t
    else
      UnixStep(t, n, Unix(t[n + 1..]));
      DropCr(t[..n]) + "\n" + Unix(t[n + 1..])
  }

  lemma UnixStep(t: string, n: nat, u: string)
    requires n < |t| && t[n] == '\n' && (forall i | 0 <= i < n :: t[i] != '\n')
    requires |u| <= |t| - n - 1 && (NoCrLf(t[n + 1..]) <==> u == t[n + 1..])
    ensures var r := DropCr(t[..n]) + "\n" + u; |r| <= |t| && (NoCrLf(t) <==> r == t)
  {
    UnixSplit(t, n);
    assert t == t[..n] + "\n" + t[n + 1..];
    if n > 0 && t[n - 1] == '\r' {
      assert |DropCr(t[..n]) + "\n" + u| < |t|;
    } else {
      assert DropCr(t[..n]) == t[..n];
      TailSame(t[..n] + "\n", u, t[n + 1..]);
    }
  }

  lemma TailSame(a: string, u: string, v: string)
    ensures a + u == a + v <==> u == v
  {
    assert (a + u)[|a|..] == u && (a + v)[|a|..] == v;
  }

  lemma UnixSplit(t: string, n: nat)
    requires n < |t| && t[n] == '\n' && '\n' !in t[..n]
    ensures NoCrLf(t) <==> (n == 0 || t[n - 1] != '\r') && NoCrLf(t[n + 1..])
  {
    var u := t[n + 1..];
    if NoCrLf(u) && (n == 0 || t[n - 1] != '\r') {
      forall i | 0 <= i && i + 1 < |t| ensures !(t[i] == '\r' && t[i + 1] == '\n') {
        if i + 1 < n {
          assert t[..n][i + 1] == t[i + 1];
        } else if i > n {
          assert t[i] == u[i - n - 1] && t[i + 1] == u[i - n];
        }
      }
    }
    if NoCrLf(t) {
      forall i | 0 <= i && i + 1 < |u| ensures !(u[i] == '\r' && u[i + 1] == '\n') {
        assert u[i] == t[i + n + 1] && u[i + 1] == t[i + n + 2];
      }
    }
  }

  /** The two ways to read t, a tilde and a newline before rest. */
  lemma TildeEnd(t: string, rest: string)
    ensures t + "~\n" + rest == t + "~" + "\n" + rest
  {
    Assoc(t, "~", "\n");
    assert "~" + "\n" == "~\n";
  }

  lemma TildeEndAfterLine(line: string, u: string, rest: string)
    ensures line + "\n" + u + "~\n" + rest == line + "\n" + (u + "~\n" + rest)
  {
    Assoc(line + "\n", u, "~\n");
    Assoc(line + "\n", u + "~\n", rest);
  }

  /** Collecting takes one line more. */
  lemma CollectStep(acc: string, line: string, more: string)
    requires '~' !in acc && '\n' !in line
    ensures CollectToTilde(acc, line + "\n" + more) == CollectToTilde(acc + "\n" + DropCr(line), more)
  {
    GetPrintedLine(line, more);
  }

  /** Collecting stops at a line that ends in a tilde. */
  lemma CollectLast(acc: string, line: string, rest: string)
    requires '~' !in acc && '\n' !in line
    ensures CollectToTilde(acc, line + "~\n" + rest) == Split(acc + "\n" + line + "~", rest)
  {
    TildeEnd(line, rest);
    CollectStep(acc, line + "~", rest);
    var acc' := acc + "\n" + (line + "~");
    Assoc(acc + "\n", line, "~");
    assert acc'[|acc'| - 1] == '~';
  }

  lemma UnixOfLine(line: string)
    requires '\n' !in line
    ensures Unix(line) == line
  {
    SpanUnique(LineBody, line, |line|);
  }

  lemma UnixOfLines(line: string, u: string)
    requires '\n' !in line
    ensures Unix(line + "\n" + u) == DropCr(line) + "\n" + Unix(u)
  {
    var t := line + "\n" + u;
    SpanUnique(LineBody, t, |line|);
    assert t[..|line|] == line && t[|line| + 1..] == u;
  }

  /** A text with a newline is its first line and the text after it. */
  lemma FirstLine(t: string) returns (line: string, u: string)
    requires '\n' in t
    ensures t == line + "\n" + u && '\n' !in line
  {
    var n := Span(LineBody, t);
    line, u := t[..n], t[n + 1..];
  }

  /** Collecting a printed text up to its tilde yields the text so far, the printed text with its
      line ends normalised, and the tilde. */
  lemma {:induction false} CollectPrinted(acc: string, t: string, rest: string)
    requires '~' !in t && '~' !in acc
    ensures CollectToTilde(acc, t + "~\n" + rest) == Split(acc + "\n" + Unix(t) + "~", rest)
    decreases |t|
  {
    if '\n' !in t {
      UnixOfLine(t);
      CollectLast(acc, t, rest);
    } else {
      var line, u := FirstLine(t);
      CollectPrintedLines(acc, line, u, rest);
    }
  }

  lemma {:induction false} CollectPrintedLines(acc: string, line: string, u: string, rest: string)
    requires '~' !in acc && '~' !in line + "\n" + u && '\n' !in line
    ensures CollectToTilde(acc, line + "\n" + u + "~\n" + rest)
         == Split(acc + "\n" + Unix(line + "\n" + u) + "~", rest)
    decreases |line + "\n" + u|, 0
  {
    var more := u + "~\n" + rest;
    TildeEndAfterLine(line, u, rest);
    CollectStep(acc, line, more);
    UnixOfLines(line, u);
    var t := line + "\n" + u;
    assert forall c | c in line || c in u :: c in t;
    var kept := DropCr(line);
    CollectPrinted(acc + "\n" + kept, u, rest);
    Assoc(acc + "\n", kept + "\n", Unix(u));
    Assoc(acc + "\n", kept, "\n");
  }

  /** Reading back a printed tilde string. */
  lemma ReadPrintedTilde(t: string, rest: string)
    requires '~' !in t
    ensures ReadTildeField(t + "~\n" + rest) == Split(Unix(t), rest)
  {
    NoTildeInUnix(t);
    StripTildesConcat(Unix(t), "~");
    if '\n' !in t {
      UnixOfLine(t);
      TildeEnd(t, rest);
      GetPrintedLine(t + "~", rest);
      assert (t + "~")[|t|] == '~';
    } else {
      var line, u := FirstLine(t);
      var more := u + "~\n" + rest;
      UnixOfLines(line, u);
      TildeEndAfterLine(line, u, rest);
      GetPrintedLine(line, more);
      CollectPrinted(DropCr(line), u, rest);
    }
  }

  lemma {:induction false} NoTildeInUnix(t: string)
    ensures '~' in Unix(t) <==> '~' in t
    decreases |t|
  {
    var n := Span(LineBody, t);
    if n < |t| {
      NoTildeInUnix(t[n + 1..]);
      TildeStep(t, n, Unix(t[n + 1..]));
    }
  }

  lemma TildeStep(t: string, n: nat, u: string)
    requires n < |t| && t[n] == '\n' && ('~' in u <==> '~' in t[n + 1..])
    ensures '~' in DropCr(t[..n]) + "\n" + u <==> '~' in t
  {
    assert t == t[..n] + "\n" + t[n + 1..];
    InThree('~', t[..n], "\n", t[n + 1..]);
    InThree('~', DropCr(t[..n]), "\n", u);
    InDropped('~', t[..n]);
  }

  lemma InThree(c: char, a: string, b: string, d: string)
    ensures c in a + b + d <==> c in a || c in b || c in d
  {
  }

  lemma InDropped(c: char, s: string)
    requires c != '\r'
    ensures c in DropCr(s) <==> c in s
  {
    if s != "" {
      assert s == s[..|s| - 1] + [s[|s| - 1]];
    }
  }

  /** A tilde string survives printing and reading exactly when it holds no tilde and no carriage
      return before a newline. */
  lemma TildeRoundTrip(t: string, rest: string)
    ensures ReadTildeField(t + "~\n" + rest) == Split(t, rest) <==> Carried(t)
  {
    if '~' in t {
      assert '~' !in ReadTildeField(t + "~\n" + rest).line;
    } else {
      ReadPrintedTilde(t, rest);
    }
  }

  // ---------- What a reader can build ----------

  /** No newline is preceded by two carriage returns: true of every text whose line ends are all
      plain newlines or all carriage return plus newline. */
  predicate SingleCr(s: string) {
    forall i | 0 <= i && i + 2 < |s| :: !(s[i] == '\r' && s[i + 1] == '\r' && s[i + 2] == '\n')
  }

  lemma SingleCrRest(s: string, k: nat)
    requires SingleCr(s) && k <= |s|
    ensures SingleCr(s[k..])
  {
    var u := s[k..];
    forall i | 0 <= i && i + 2 < |u| ensures !(u[i] == '\r' && u[i + 1] == '\r' && u[i + 2] == '\n') {
      assert u[i] == s[i + k] && u[i + 1] == s[i + k + 1] && u[i + 2] == s[i + k + 2];
    }
  }

  predicate EndsInCr(s: string) {
    s != "" && s[|s| - 1] == '\r'
  }

  /** In such a text only the very last line can keep a carriage return at its end. */
  lemma GetLineOfSingleCr(s: string)
    requires s != "" && SingleCr(s)
    ensures SingleCr(GetLine(s).rest)
    ensures EndsInCr(GetLine(s).line) ==> GetLine(s).rest == ""
    ensures NoCrLf(GetLine(s).line)
  {
    var n := Span(LineBody, s);
    SingleCrRest(s, |s| - |GetLine(s).rest|);
    if 2 <= n < |s| {
      assert s[n] == '\n' && (s[n - 2] != '\r' || s[n - 1] != '\r');
    }
  }

  lemma {:induction false} CollectOfSingleCr(acc: string, s: string)
    requires SingleCr(s) && NoCrLf(acc) && (EndsInCr(acc) ==> s == "" || '~' in acc)
    ensures SingleCr(CollectToTilde(acc, s).rest)
    ensures NoCrLf(CollectToTilde(acc, s).line)
    decreases |s|
  {
    if '~' !in acc && s != "" {
      var next := GetLine(s);
      GetLineOfSingleCr(s);
      NoCrLfJoin(acc, next.line);
      CollectOfSingleCr(acc + "\n" + next.line, next.rest);
    }
  }

  lemma NoCrLfJoin(a: string, b: string)
    requires NoCrLf(a) && NoCrLf(b) && '\n' !in b && !EndsInCr(a)
    ensures NoCrLf(a + "\n" + b)
  {
  }

  /** No newline comes after a tilde. */
  predicate TildesLast(s: string) {
    forall i, j | 0 <= i < j < |s| && s[i] == '~' :: s[j] != '\n'
  }

  lemma StripTildesNoCrLf(s: string)
    requires NoCrLf(s)
    requires TildesLast(s)
    ensures NoCrLf(StripTildes(s))
  {
    if s != "" {
      var u := s[1..];
      assert forall i | 0 <= i < |u| :: u[i] == s[i + 1];
      StripTildesNoCrLf(u);
      if s[0] == '~' {
      } else {
        var r := StripTildes(u);
        if s[0] == '\r' && r != "" && r[0] == '\n' {
          StripTildesHead(u);
        }
      }
    }
  }

  /** If stripping exposes a newline in front, it stood in front already or behind a tilde. */
  lemma StripTildesHead(s: string)
    requires StripTildes(s) != "" && StripTildes(s)[0] == '\n'
    ensures s[0] == '\n' || (s[0] == '~' && exists j :: 0 < j < |s| && s[j] == '\n')
  {
    if s[0] == '~' {
      StripTildesHead(s[1..]);
      if s[1] == '\n' {
      } else {
        var j :| 0 < j < |s[1..]| && s[1..][j] == '\n';
        assert s[j + 1] == '\n';
      }
    }
  }

  /** Nothing but the last line of a collected text can hold a tilde. */
  lemma {:induction false} CollectTildeLast(acc: string, s: string)
    requires TildesLast(acc)
    ensures TildesLast(CollectToTilde(acc, s).line)
    decreases |s|
  {
    if '~' !in acc && s != "" {
      var next := GetLine(s);
      var acc' := acc + "\n" + next.line;
      assert TildesLast(acc') by {
        assert forall j | |acc| < j < |acc'| :: acc'[j] == next.line[j - |acc| - 1];
      }
      CollectTildeLast(acc', next.rest);
    }
  }

  /** Whatever a reader takes as a tilde string has no tilde, and in such a text it can be carried. */
  lemma ReadTildeCarried(first: string, s: string)
    requires '\n' !in first
    ensures '~' !in ReadTilde(first, s).line
    ensures SingleCr(s) && (EndsInCr(first) ==> s == "") ==>
      Carried(ReadTilde(first, s).line) && SingleCr(ReadTilde(first, s).rest)
  {
    if SingleCr(s) && (EndsInCr(first) ==> s == "") {
      CollectOfSingleCr(first, s);
      CollectTildeLast(first, s);
      StripTildesNoCrLf(CollectToTilde(first, s).line);
    }
  }

  // ---------- Numbers ----------

  function NatOf(digits: string): (n: nat)
    requires Digit.All(digits)
  {
    if digits == "" then 0
    else
      var k := |digits| - 1;
      assert Digit.Has(digits[k]);
      10 * NatOf(digits[..k]) + (digits[k] - '0') as nat
  }

  function Dec(n: nat): (s: string)
    ensures s != "" && Digit.All(s)
  {
    var last := [('0' as nat + n % 10) as char];
    if n < 10 then last else Dec(n / 10) + last
  }

  lemma {:induction false} NatOfDec(n: nat)
    ensures NatOf(Dec(n)) == n
  {
    var s := Dec(n);
    if n >= 10 {
      NatOfDec(n / 10);
      assert s[..|s| - 1] == Dec(n / 10);
    } else {
      assert s[..0] == "";
    }
  }

  function Int(z: int): (s: string)
    ensures s != "" && Signed.All(s)
    ensures z >= 0 ==> Digit.All(s)
  {
    if z < 0 then "-" + Dec(-z) else Dec(z)
  }

  /** An optional minus sign and the digits after it; zero when there are none. */
  function IntOf(s: string): int {
    if s != "" && s[0] == '-' then 0 - NatOf(s[1..][..Span(Digit, s[1..])]) as int
    else NatOf(s[..Span(Digit, s)])
  }

  lemma {:induction false} IntOfInt(z: int)
    ensures IntOf(Int(z)) == z
    ensures z >= 0 ==> NatOf(Int(z)) == z
  {
    var digits := Dec(if z < 0 then -z else z);
    NatOfDec(if z < 0 then -z else z);
    assert digits[..|digits|] == digits;
    SpanUnique(Digit, digits, |digits|);
    if z < 0 {
      assert Int(z)[1..] == digits;
    } else {
      assert Digit.Has(digits[0]);
    }
  }

  lemma IntOfDigits(s: string)
    requires Digit.All(s)
    ensures IntOf(s) >= 0
  {
    if s != "" {
      assert Digit.Has(s[0]);
    }
  }

  // ---------- Fields on a line ----------

  datatype Fields = Fields(values: seq<string>, rest: string)

  predicate AllInClass(classes: seq<CharClass>, values: seq<string>) {
    && |values| == |classes|
    && forall i | 0 <= i < |values| :: values[i] != "" && classes[i].All(values[i])
  }

  /** One non-empty run for each class, with one space between runs (any white space if wide). Every
      class used excludes white space, so the longest run is the only one that can match. */
  function MatchFields(classes: seq<CharClass>, wide: bool, s: string): (r: Option<Fields>)
    ensures r.Some? ==> AllInClass(classes, r.value.values)
    decreases |classes|
  {
    if classes == [] then Some(Fields([], s))
    else
      var n := Span(classes[0], s);
      var after := s[n..];
      if n == 0 then None
      else if |classes| == 1 then Some(Fields([s[..n]], after))
      else
        var gap := if wide then Span(Space, after) else if after != "" && after[0] == ' ' then 1 else 0;
        if gap == 0 then None
        else
          match MatchFields(classes[1..], wide, after[gap..])
          case None => None
          case Some(more) =>
            ConsInClass(classes, s[..n], more.values);
            Some(Fields([s[..n]] + more.values, more.rest))
  }

  lemma ConsInClass(classes: seq<CharClass>, value: string, values: seq<string>)
    requires classes != [] && value != "" && classes[0].All(value) && AllInClass(classes[1..], values)
    ensures AllInClass(classes, [value] + values)
  {
    var all := [value] + values;
    forall i | 0 <= i < |all| ensures all[i] != "" && classes[i].All(all[i]) {
      if i > 0 {
        assert all[i] == values[i - 1] && classes[1..][i - 1] == classes[i];
      }
    }
  }

  /** The values with one space between each two. */
  function Joined(values: seq<string>): string {
    if values == [] then ""
    else if |values| == 1 then values[0]
    else values[0] + " " + Joined(values[1..])
  }

  predicate FieldClass(cls: CharClass) {
    cls != Space && cls != LineBody
  }

  /** tail does not prolong a run of class cls. */
  predicate Stops(cls: CharClass, tail: string) {
    tail != "" ==> !cls.Has(tail[0])
  }

  /** The first field of a printed line. */
  lemma MatchFirst(cls: CharClass, value: string, tail: string)
    requires value != "" && cls.All(value) && Stops(cls, tail)
    ensures var s := value + tail;
      Span(cls, s) == |value| && s[..|value|] == value && s[|value|..] == tail
  {
    SpanUnique(cls, value + tail, |value|);
  }

  /** One space is the whole gap before a field. */
  lemma MatchGap(more: string)
    requires more != "" && !IsSpace(more[0])
    ensures Span(Space, " " + more) == 1 && (" " + more)[1..] == more
  {
    SpanUnique(Space, " " + more, 1);
  }

  lemma JoinedStep(values: seq<string>, tail: string)
    requires |values| > 1
    ensures Joined(values) + tail == values[0] + (" " + (Joined(values[1..]) + tail))
  {
    Assoc(values[0] + " ", Joined(values[1..]), tail);
    Assoc(values[0], " ", Joined(values[1..]) + tail);
  }

  lemma MatchMore(classes: seq<CharClass>, wide: bool, value: string, more: string, f: Fields)
    requires |classes| > 1 && value != "" && classes[0].All(value) && FieldClass(classes[0])
    requires more != "" && !IsSpace(more[0]) && MatchFields(classes[1..], wide, more) == Some(f)
    ensures MatchFields(classes, wide, value + (" " + more)) == Some(Fields([value] + f.values, f.rest))
  {
    MatchFirst(classes[0], value, " " + more);
    MatchGap(more);
  }

  lemma {:induction false} MatchJoined(classes: seq<CharClass>, wide: bool, values: seq<string>, tail: string)
    requires classes != [] && AllInClass(classes, values)
    requires forall i | 0 <= i < |classes| :: FieldClass(classes[i])
    requires Stops(classes[|classes| - 1], tail)
    ensures MatchFields(classes, wide, Joined(values) + tail) == Some(Fields(values, tail))
    decreases |classes|
  {
    if |classes| == 1 {
      MatchFirst(classes[0], values[0], tail);
      assert [values[0]] == values;
    } else {
      var more := Joined(values[1..]) + tail;
      JoinedStep(values, tail);
      assert FieldClass(classes[0]);
      JoinedHead(classes[1..], values[1..]);
      MatchJoined(classes[1..], wide, values[1..], tail);
      MatchMore(classes, wide, values[0], more, Fields(values[1..], tail));
      assert [values[0]] + values[1..] == values;
    }
  }

  lemma JoinedHead(classes: seq<CharClass>, values: seq<string>)
    requires classes != [] && AllInClass(classes, values)
    requires forall i | 0 <= i < |classes| :: FieldClass(classes[i])
    ensures Joined(values) != "" && !IsSpace(Joined(values)[0])
  {
    assert FieldClass(classes[0]) && classes[0].Has(values[0][0]);
    if |values| > 1 {
      assert Joined(values)[0] == values[0][0];
    }
  }

  /** The first place in s where the fields match. */
  function FindFields(classes: seq<CharClass>, s: string): (r: Option<Fields>)
    ensures r.Some? ==> AllInClass(classes, r.value.values)
    decreases |s|
  {
    var here := MatchFields(classes, false, s);
    if here.Some? || s == "" then here else FindFields(classes, s[1..])
  }

  /** An optional last field, after one space. */
  function Trailing(cls: CharClass, rest: string): (r: Option<string>)
    ensures r.Some? ==> r.value != "" && cls.All(r.value)
  {
    if rest == "" || rest[0] != ' ' then None
    else
      match MatchFields([cls], false, rest[1..])
      case None => None
      case Some(f) => Some(f.values[0])
  }

  lemma TrailingRead(cls: CharClass, field: Option<string>)
    requires FieldClass(cls) && (field.Some? ==> field.value != "" && cls.All(field.value))
    ensures var text := if field.Some? then " " + field.value else "";
      Trailing(cls, text) == field && '\n' !in text && !EndsInCr(text)
  {
    if field.Some? {
      var v := field.value;
      assert (" " + v)[1..] == v;
      MatchJoined([cls], false, [v], "");
      JoinedPlain([cls], [v]);
      assert v + "" == v;
    }
  }

  // ---------- Printed numbers ----------

  lemma IntField(z: int)
    ensures Signed.All(Int(z)) && Int(z) != "" && IntOf(Int(z)) == z
    ensures z >= 0 ==> Digit.All(Int(z)) && NatOf(Int(z)) == z
  {
    IntOfInt(z);
  }

  /** Printed number lines hold no line ends. */
  lemma JoinedPlain(classes: seq<CharClass>, values: seq<string>)
    requires AllInClass(classes, values) && forall i | 0 <= i < |classes| :: FieldClass(classes[i])
    ensures '\n' !in Joined(values) && '\r' !in Joined(values)
  {
    if |values| > 0 {
      assert FieldClass(classes[0]);
      assert forall c | c in values[0] :: classes[0].Has(c);
      if |values| > 1 {
        JoinedPlain(classes[1..], values[1..]);
      }
    }
  }

  lemma OneNumber(z: int)
    requires z >= 0
    ensures MatchFields([Digit], false, Int(z)) == Some(Fields([Int(z)], ""))
    ensures IntOf(Int(z)) == z && '\n' !in Int(z) && '\r' !in Int(z)
  {
    IntField(z);
    MatchJoined([Digit], false, [Int(z)], "");
    JoinedPlain([Digit], [Int(z)]);
    assert Int(z) + "" == Int(z);
  }
}
