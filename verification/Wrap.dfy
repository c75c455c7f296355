/** Descriptions rewritten to fit the screen: words are separated after punctuation, "very" and repeated
    words go, and what is left is laid out in lines. */
module Wrap {
  import opened Text

  const SCREEN_WIDTH := 70

  predicate IsQuote(c: char) {
    c == '"' || c == '\''
  }

  // ---------- The library steps ----------

  function LeftStrip(s: string): (r: string)
    ensures r == "" || !IsSpace(r[0])
  {
    s[Span(Space, s)..]
  }

  function RightStrip(s: string): (r: string)
    ensures r <= s
    ensures r == "" || !IsSpace(r[|r| - 1])
  {
    if s == "" || !IsSpace(s[|s| - 1]) then s else RightStrip(s[..|s| - 1])
  }

  function Strip(s: string): string {
    RightStrip(LeftStrip(s))
  }

  /** The length of a run of stops at the start of s, with a quote after it. */
  function StopLength(s: string): (n: nat)
    ensures n <= |s|
    ensures s != "" && IsStop(s[0]) ==> n > 0
  {
    var n := Span(Stop, s);
    if 0 < n < |s| && IsQuote(s[n]) then n + 1 else n
  }

  /** A space put after every run of stops. */
  function Spaced(s: string): string {
    if s == "" then ""
    else if IsStop(s[0]) then
      var n := StopLength(s);
      s[..n] + " " + Spaced(s[n..])
    else [s[0]] + Spaced(s[1..])
  }

  /** The words between runs of white space. */
  function Words(s: string): seq<string> {
    if s == "" then []
    else if IsSpace(s[0]) then Words(s[1..])
    else
      var n := Span(Word, s);
      [s[..n]] + Words(s[n..])
  }

  // ---------- Tokens ----------

  /** The length of the token at the start of s: up to white space or up to the end of a run of stops. */
  function TokenLength(s: string): (n: nat)
    ensures n <= |s|
    ensures s != "" && !IsSpace(s[0]) ==> n > 0
  {
    var n := Span(Plain, s);
    n + StopLength(s[n..])
  }

  function Tokens(s: string): seq<string> {
    if s == "" then []
    else if IsSpace(s[0]) then Tokens(s[1..])
    else
      var n := TokenLength(s);
      [s[..n]] + Tokens(s[n..])
  }

  predicate IsToken(w: string) {
    w != "" && !IsSpace(w[0]) && TokenLength(w) == |w|
  }

  predicate AllTokens(ws: seq<string>) {
    forall i | 0 <= i < |ws| :: IsToken(ws[i])
  }

  predicate StartsWithSpace(s: string) {
    s == "" || IsSpace(s[0])
  }

  lemma SpanBefore(cls: CharClass, a: string, b: string)
    requires StartsWithSpace(b) && !cls.Space? && !cls.LineBody?
    ensures Span(cls, a + b) == Span(cls, a)
  {
    SpanUnique(cls, a + b, Span(cls, a));
  }

  lemma StopLengthBefore(a: string, b: string)
    requires StartsWithSpace(b)
    ensures StopLength(a + b) == StopLength(a)
  {
    SpanBefore(Stop, a, b);
  }

  lemma TokenLengthBefore(a: string, b: string)
    requires StartsWithSpace(b)
    ensures TokenLength(a + b) == TokenLength(a)
  {
    var n := Span(Plain, a);
    SpanBefore(Plain, a, b);
    assert (a + b)[n..] == a[n..] + b;
    StopLengthBefore(a[n..], b);
  }

  lemma SpanPart(cls: CharClass, s: string, n: nat)
    requires Span(cls, s) <= n <= |s|
    ensures Span(cls, s[..n]) == Span(cls, s)
  {
    SpanUnique(cls, s[..n], Span(cls, s));
  }

  /** What tokenising cuts off is a token. */
  lemma CutToken(s: string)
    requires s != "" && !IsSpace(s[0])
    ensures IsToken(s[..TokenLength(s)])
  {
    var n, k := Span(Plain, s), TokenLength(s);
    SpanPart(Plain, s, k);
    assert s[..k][n..] == s[n..][..k - n];
    SpanPart(Stop, s[n..], k - n);
  }

  lemma {:induction false} TokensAre(s: string)
    ensures AllTokens(Tokens(s))
    decreases |s|
  {
    if s != "" {
      if IsSpace(s[0]) {
        TokensAre(s[1..]);
      } else {
        CutToken(s);
        TokensAre(s[TokenLength(s)..]);
      }
    }
  }

  lemma OneToken(w: string)
    requires IsToken(w)
    ensures Tokens(w) == [w]
  {
    assert w[..|w|] == w && w[|w|..] == "";
  }

  lemma Cons(x: string, a: seq<string>, b: seq<string>)
    ensures [x] + (a + b) == [x] + a + b
  {
  }

  lemma CutApart(a: string, c: char, b: string, n: nat)
    requires n <= |a|
    ensures (a + [c] + b)[..n] == a[..n] && (a + [c] + b)[n..] == a[n..] + [c] + b && a + [c] + b == a + ([c] + b)
  {
  }

  lemma FirstToken(s: string)
    requires s != "" && !IsSpace(s[0])
    ensures Tokens(s) == [s[..TokenLength(s)]] + Tokens(s[TokenLength(s)..])
  {
  }

  /** White space separates: the tokens on both sides are what they are apart. */
  lemma {:induction false} TokensApart(a: string, c: char, b: string)
    requires IsSpace(c)
    ensures Tokens(a + [c] + b) == Tokens(a) + Tokens(b)
    decreases |a|
  {
    if a == "" {
      assert (a + [c] + b)[1..] == b;
      assert [] + Tokens(b) == Tokens(b);
    } else if IsSpace(a[0]) {
      CutApart(a, c, b, 1);
      TokensApart(a[1..], c, b);
    } else {
      var n := TokenLength(a);
      TokenLengthBefore(a, [c] + b);
      CutApart(a, c, b, n);
      TokensApart(a[n..], c, b);
      FirstToken(a);
      FirstToken(a + [c] + b);
      Cons(a[..n], Tokens(a[n..]), Tokens(b));
    }
  }

  lemma {:induction false} TokensRightStrip(s: string)
    ensures Tokens(RightStrip(s)) == Tokens(s)
    decreases |s|
  {
    if s != "" && IsSpace(s[|s| - 1]) {
      var a := s[..|s| - 1];
      assert s == a + [s[|s| - 1]] + "";
      TokensApart(a, s[|s| - 1], "");
      TokensRightStrip(a);
    }
  }

  lemma {:induction false} TokensLeftStrip(s: string)
    ensures Tokens(LeftStrip(s)) == Tokens(s)
    decreases |s|
  {
    if s != "" && IsSpace(s[0]) {
      assert LeftStrip(s) == LeftStrip(s[1..]);
      TokensLeftStrip(s[1..]);
    }
  }

  // ---------- Where tokens begin and end ----------

  /** A word ends between the characters at i - 1 and i: at white space, after the last of a run of stops and,
      if a quote follows that, after the quote. */
  predicate BreakAt(s: string, i: nat)
    requires 0 < i < |s|
  {
    || IsSpace(s[i - 1]) || IsSpace(s[i])
    || (IsStop(s[i - 1]) && !IsStop(s[i]) && !IsQuote(s[i]))
    || (i > 1 && IsStop(s[i - 2]) && IsQuote(s[i - 1]))
  }

  /** The token at the start of s is the first stretch without a break. */
  lemma TokenEnds(s: string, i: nat)
    requires s != "" && !IsSpace(s[0]) && 0 < i < |s|
    ensures i < TokenLength(s) ==> !BreakAt(s, i)
    ensures i == TokenLength(s) ==> BreakAt(s, i)
  {
    var p, n := Span(Plain, s), TokenLength(s);
    var stops := s[p..];
    var k := Span(Stop, stops);
    forall j | p <= j < |s| ensures stops[j - p] == s[j] {
    }
    forall j | 0 <= j < n ensures !IsSpace(s[j]) && (j < p ==> !IsStop(s[j])) {
      if j < p {
        assert Plain.Has(s[j]);
      }
    }
    forall j | p <= j < p + k ensures IsStop(s[j]) {
      assert Stop.Has(stops[j - p]);
    }
  }

  lemma TokenOfPart(s: string, i: nat)
    requires s != "" && !IsSpace(s[0]) && TokenLength(s) <= i <= |s|
    ensures TokenLength(s[..i]) == TokenLength(s)
  {
    var p := Span(Plain, s);
    SpanPart(Plain, s, i);
    assert s[..i][p..] == s[p..][..i - p];
    SpanPart(Stop, s[p..], i - p);
  }

  /** What is cut off in front: a white space character or a token. */
  predicate CutsOff(s: string, n: nat) {
    s != "" && if IsSpace(s[0]) then n == 1 else n == TokenLength(s)
  }

  lemma CutsOffBoth(a: string, b: string, n: nat)
    requires a != "" && b != "" && BreakAt(a + b, |a|) && CutsOff(a, n)
    ensures n <= |a| && CutsOff(a + b, n)
  {
    if !IsSpace(a[0]) {
      TokenEnds(a + b, |a|);
      TokenOfPart(a + b, |a|);
      assert (a + b)[..|a|] == a;
    }
  }

  lemma BreakLater(a: string, b: string, n: nat)
    requires b != "" && n < |a| && BreakAt(a + b, |a|) && CutsOff(a, n)
    ensures BreakAt(a[n..] + b, |a| - n)
  {
    if |a| == n + 1 && !IsSpace(a[0]) {
      TokenEnds(a, n);
    }
  }

  lemma CutInFront(a: string, b: string, n: nat)
    requires n <= |a|
    ensures (a + b)[..n] == a[..n] && (a + b)[n..] == a[n..] + b
  {
  }

  lemma CutOff(s: string, n: nat)
    requires CutsOff(s, n)
    ensures n <= |s| && Tokens(s) == (if IsSpace(s[0]) then [] else [s[..n]]) + Tokens(s[n..])
  {
  }

  /** A text is cut into tokens wherever there is a break. */
  lemma {:induction false} TokensCut(a: string, b: string)
    requires a != "" && b != "" && BreakAt(a + b, |a|)
    ensures Tokens(a + b) == Tokens(a) + Tokens(b)
    decreases |a|
  {
    var n := if IsSpace(a[0]) then 1 else TokenLength(a);
    CutsOffBoth(a, b, n);
    var rest := a[n..];
    if rest != "" {
      BreakLater(a, b, n);
      TokensCut(rest, b);
    } else {
      assert rest + b == b && [] + Tokens(b) == Tokens(b);
    }
    CutOff(a, n);
    CutOff(a + b, n);
    CutInFront(a, b, n);
    SeqAssoc(if IsSpace(a[0]) then [] else [a[..n]], Tokens(rest), Tokens(b));
  }

  lemma SeqAssoc(a: seq<string>, b: seq<string>, c: seq<string>)
    ensures a + b + c == a + (b + c)
  {
  }

  /** And nowhere else: a text without white space and without a break is one token. */
  lemma TokenWhole(s: string)
    requires s != "" && !IsSpace(s[0]) && forall i | 0 < i < |s| :: !BreakAt(s, i)
    ensures Tokens(s) == [s]
  {
    var n := TokenLength(s);
    if n < |s| {
      TokenEnds(s, n);
    } else {
      OneToken(s);
    }
  }

  // ---------- Splitting the spaced text yields the tokens ----------

  lemma {:induction false} SpacedPlain(a: string, b: string)
    requires Plain.All(a)
    ensures Spaced(a + b) == a + Spaced(b)
    decreases |a|
  {
    if a == "" {
      assert a + b == b;
    } else {
      assert Plain.Has(a[0]);
      SpacedPlain(a[1..], b);
      assert (a + b)[1..] == a[1..] + b;
      Assoc([a[0]], a[1..], Spaced(b));
      assert [a[0]] + a[1..] == a;
    }
  }

  lemma WordFirst(w: string, rest: string)
    requires w != "" && Word.All(w) && StartsWithSpace(rest)
    ensures Words(w + rest) == [w] + Words(rest)
  {
    var s := w + rest;
    SpanUnique(Word, s, |w|);
    assert Word.Has(w[0]);
    assert s[..|w|] == w && s[|w|..] == rest;
  }

  lemma TokenIsWord(s: string)
    ensures Word.All(s[..TokenLength(s)])
  {
    var n := Span(Plain, s);
    var k := Span(Stop, s[n..]);
    forall i | 0 <= i < TokenLength(s) ensures Word.Has(s[i]) {
      if i < n {
        assert Plain.Has(s[i]);
      } else if i < n + k {
        assert Stop.Has(s[n..][i - n]);
      }
    }
  }

  /** The gap that spacing leaves after the token at the start of s. */
  function GapAfter(s: string): (gap: string)
    ensures gap == " " || gap == ""
  {
    if TokenLength(s) > Span(Plain, s) then " " else ""
  }

  lemma GapNeeded(s: string)
    requires s != "" && !IsSpace(s[0])
    ensures GapAfter(s) == "" ==> StartsWithSpace(s[TokenLength(s)..])
  {
    var p := Span(Plain, s);
    if p < |s| && IsStop(s[p]) {
      assert s[p..][0] == s[p];
    }
  }

  lemma SpacedStops(s: string)
    requires s != "" && IsStop(s[0])
    ensures Spaced(s) == s[..StopLength(s)] + (" " + Spaced(s[StopLength(s)..]))
  {
    Assoc(s[..StopLength(s)], " ", Spaced(s[StopLength(s)..]));
  }

  /** Spacing leaves a token together and sets it off from what follows. */
  lemma SpacedToken(s: string)
    requires s != "" && !IsSpace(s[0])
    ensures Spaced(s) == s[..TokenLength(s)] + (GapAfter(s) + Spaced(s[TokenLength(s)..]))
  {
    var p, n := Span(Plain, s), TokenLength(s);
    var rest := s[p..];
    SpacedPlain(s[..p], rest);
    Cut(s, p, n);
    if n == p {
      assert "" + Spaced(s[n..]) == Spaced(s[n..]);
    } else {
      SpacedStops(rest);
      Assoc(s[..p], rest[..n - p], " " + Spaced(s[n..]));
    }
  }

  lemma Cut(s: string, p: nat, n: nat)
    requires p <= n <= |s|
    ensures s == s[..p] + s[p..] && s[p..][n - p..] == s[n..] && s[..p] + s[p..][..n - p] == s[..n]
  {
  }

  lemma {:induction false} WordsAreTokens(s: string)
    ensures Words(Spaced(s)) == Tokens(s)
    decreases |s|
  {
    if s != "" {
      if IsSpace(s[0]) {
        assert Spaced(s)[1..] == Spaced(s[1..]);
        WordsAreTokens(s[1..]);
      } else {
        var n := TokenLength(s);
        var gap, rest := GapAfter(s), Spaced(s[n..]);
        SpacedToken(s);
        GapNeeded(s);
        WordsAreTokens(s[n..]);
        TokenIsWord(s);
        if gap == " " {
          assert (gap + rest)[1..] == rest;
        } else {
          assert gap + rest == rest;
        }
        WordFirst(s[..n], gap + rest);
      }
    }
  }

  lemma SplitText(original: string)
    ensures Words(Spaced(Strip(original))) == Tokens(original)
  {
    WordsAreTokens(Strip(original));
    TokensRightStrip(LeftStrip(original));
    TokensLeftStrip(original);
  }

  // ---------- Words that are kept ----------

  /** What is kept of ws after the word last. */
  function Kept(ws: seq<string>, last: string): seq<string> {
    if ws == [] then []
    else if ws[0] == "very" || ws[0] == last then Kept(ws[1..], last)
    else [ws[0]] + Kept(ws[1..], ws[0])
  }

  function NotVery(ws: seq<string>): seq<string> {
    if ws == [] then []
    else if ws[0] == "very" then NotVery(ws[1..])
    else [ws[0]] + NotVery(ws[1..])
  }

  /** One word of every run of equal words. */
  function Collapsed(ws: seq<string>): seq<string> {
    if |ws| <= 1 then ws
    else if ws[0] == ws[1] then Collapsed(ws[1..])
    else [ws[0]] + Collapsed(ws[1..])
  }

  predicate Settled(ws: seq<string>) {
    && (forall i | 0 <= i < |ws| :: ws[i] != "very")
    && (forall i | 0 < i < |ws| :: ws[i] != ws[i - 1])
  }

  lemma {:induction false} KeptAfter(ws: seq<string>, last: string)
    requires last != "very"
    ensures [last] + Kept(ws, last) == Collapsed([last] + NotVery(ws))
    decreases |ws|
  {
    if ws != [] {
      var w, more := ws[0], NotVery(ws[1..]);
      if w == "very" || w == last {
        KeptAfter(ws[1..], last);
        if w == last {
          assert NotVery(ws) == [last] + more && ([last] + NotVery(ws))[1..] == [last] + more;
        }
      } else {
        KeptAfter(ws[1..], w);
        assert ([last] + NotVery(ws))[1..] == [w] + more;
      }
    }
  }

  /** What is kept is the text without "very", and without consecutive repeats once that is gone. */
  lemma {:induction false} KeptIs(ws: seq<string>)
    requires AllTokens(ws)
    ensures Kept(ws, "") == Collapsed(NotVery(ws))
    decreases |ws|
  {
    if ws != [] {
      assert IsToken(ws[0]);
      if ws[0] == "very" {
        KeptIs(ws[1..]);
      } else {
        KeptAfter(ws[1..], ws[0]);
      }
    }
  }

  lemma {:induction false} KeptSettled(ws: seq<string>, last: string)
    requires AllTokens(ws) && last != "very"
    ensures AllTokens(Kept(ws, last)) && Settled([last] + Kept(ws, last))
    decreases |ws|
  {
    if ws != [] {
      var w := ws[0];
      assert AllTokens(ws[1..]);
      if w == "very" || w == last {
        KeptSettled(ws[1..], last);
      } else {
        KeptSettled(ws[1..], w);
        var r := [last] + Kept(ws, last);
        assert forall i | 0 < i < |r| :: r[i] == ([w] + Kept(ws[1..], w))[i - 1];
      }
    }
  }

  lemma {:induction false} SettledKept(ws: seq<string>, last: string)
    requires Settled([last] + ws)
    ensures Kept(ws, last) == ws
    decreases |ws|
  {
    if ws != [] {
      var r := [last] + ws;
      assert r[1] == ws[0] && r[0] == last && r[1] != r[0];
      forall i | 0 <= i < |ws| ensures ws[i] != "very" && (i > 0 ==> ws[i] != ws[i - 1]) {
        assert r[i + 1] == ws[i] && r[i] == if i > 0 then ws[i - 1] else last;
      }
      assert [ws[0]] + ws[1..] == ws;
      SettledKept(ws[1..], ws[0]);
    }
  }

  // ---------- Lines ----------

  predicate EndsSentence(line: string) {
    && line != ""
    && var n := |line|;
    || IsEnd(line[n - 1])
    || (n > 1 && IsQuote(line[n - 1]) && IsEnd(line[n - 2]))
  }

  predicate IsEnd(c: char) {
    c == '.' || c == '?' || c == '!'
  }

  /** A word put on a line that has room for it. */
  function Extended(line: string, word: string): string {
    if line == "" then word
    else if EndsSentence(line) then line + "  " + word
    else line + " " + word
  }

  /** The lines that come of the line at hand and the words to come. */
  function Lines(line: string, ws: seq<string>): seq<string>
    decreases |ws|
  {
    if ws == [] then if line == "" then [] else [RightStrip(line)]
    else if |line| + |ws[0]| >= SCREEN_WIDTH then [RightStrip(line)] + Lines(ws[0], ws[1..])
    else Lines(Extended(line, ws[0]), ws[1..])
  }

  function Start(indent: bool): string {
    if indent then "  " else ""
  }

  function JoinLines(lines: seq<string>): string {
    if lines == [] then "" else if |lines| == 1 then lines[0] else lines[0] + "\n" + JoinLines(lines[1..])
  }

  /** The formatted description. */
  function Formatted(original: string, indent: bool): string {
    JoinLines(Lines(Start(indent), Kept(Tokens(original), ""))) + "\n"
  }

  lemma TokensExtended(line: string, word: string)
    requires IsToken(word)
    ensures Tokens(Extended(line, word)) == Tokens(line) + [word]
  {
    OneToken(word);
    if line != "" && EndsSentence(line) {
      TwoSpaces(line, word);
      TokensApart(line + " " + "", ' ', word);
      TokensApart(line, ' ', "");
    } else if line != "" {
      TokensApart(line, ' ', word);
    }
  }

  lemma TwoSpaces(line: string, word: string)
    ensures line + "  " + word == line + " " + "" + " " + word
  {
  }

  lemma TokensLine(line: string, more: string)
    ensures Tokens(RightStrip(line) + "\n" + more) == Tokens(line) + Tokens(more)
  {
    TokensApart(RightStrip(line), '\n', more);
    TokensRightStrip(line);
  }

  lemma LinesSome(line: string, ws: seq<string>)
    requires line != ""
    ensures Lines(line, ws) != []
    decreases |ws|
  {
  }

  /** Laying words out keeps them. */
  lemma {:induction false} TokensLaidOut(line: string, ws: seq<string>)
    requires AllTokens(ws)
    ensures Tokens(JoinLines(Lines(line, ws)) + "\n") == Tokens(line) + ws
    decreases |ws|
  {
    if ws == [] {
      TokensLastLine(line);
    } else {
      var w, rest := FirstOff(ws);
      LinesStep(line, w, rest);
      if |line| + |w| >= SCREEN_WIDTH {
        TokensLaidOut(w, rest);
        LinesSome(w, rest);
        TokensNextLine(line, w, rest, Lines(w, rest));
      } else {
        TokensLaidOut(Extended(line, w), rest);
        TokensExtended(line, w);
        SeqAssoc(Tokens(line), [w], rest);
      }
    }
  }

  lemma FirstOff(ws: seq<string>) returns (w: string, rest: seq<string>)
    requires AllTokens(ws) && ws != []
    ensures ws == [w] + rest && IsToken(w) && AllTokens(rest) && |rest| < |ws|
  {
    w, rest := ws[0], ws[1..];
  }

  lemma TokensLastLine(line: string)
    ensures Tokens(JoinLines(Lines(line, [])) + "\n") == Tokens(line) + []
  {
    assert JoinLines(Lines(line, [])) + "\n" == RightStrip(line) + "\n" + "";
    TokensLine(line, "");
  }

  lemma TokensNextLine(line: string, w: string, rest: seq<string>, more: seq<string>)
    requires IsToken(w) && more != [] && Tokens(JoinLines(more) + "\n") == Tokens(w) + rest
    ensures Tokens(JoinLines([RightStrip(line)] + more) + "\n") == Tokens(line) + ([w] + rest)
  {
    OneToken(w);
    assert ([RightStrip(line)] + more)[1..] == more;
    Assoc(RightStrip(line) + "\n", JoinLines(more), "\n");
    TokensLine(line, JoinLines(more) + "\n");
  }

  /** The words of a formatted description are the ones that were to be kept. */
  lemma TokensFormatted(original: string, indent: bool)
    ensures Tokens(Formatted(original, indent)) == Kept(Tokens(original), "")
  {
    TokensAre(original);
    KeptSettled(Tokens(original), "");
    TokensLaidOut(Start(indent), Kept(Tokens(original), ""));
    NoTokens(indent);
  }

  lemma NoTokens(indent: bool)
    ensures Tokens(Start(indent)) == []
  {
    TokensApart("", ' ', " ");
    TokensApart("", ' ', "");
  }

  /** Formatting again changes nothing, and only the last indentation asked for matters. */
  lemma FormatAgain(original: string, first: bool, second: bool)
    ensures Formatted(Formatted(original, first), second) == Formatted(original, second)
  {
    TokensFormatted(original, first);
    TokensAre(original);
    KeptSettled(Tokens(original), "");
    SettledKept(Kept(Tokens(original), ""), "");
  }

  // ---------- Where lines break ----------

  /** The words put on a line one after the other. */
  function Laid(line: string, ws: seq<string>): string {
    if ws == [] then line else Extended(Laid(line, ws[..|ws| - 1]), ws[|ws| - 1])
  }

  /** Each word found room on the line when it was put there; on an empty line any word does. */
  predicate Room(start: string, ws: seq<string>) {
    forall j | 0 <= j < |ws| && (j > 0 || start != "") :: |Laid(start, ws[..j])| + |ws[j]| < SCREEN_WIDTH
  }

  /** The lines hold their words with the right gaps, every word had room on its line, and no line could
      have taken the first word of the next. */
  predicate LaidOut(start: string, lines: seq<string>)
    decreases |lines|
  {
    lines != [] ==>
      var ws := Tokens(lines[0]);
      && lines[0] == RightStrip(Laid(start, ws)) && Room(start, ws)
      && (|lines| > 1 ==> Tokens(lines[1]) != [] && |Laid(start, ws)| + |Tokens(lines[1])[0]| >= SCREEN_WIDTH)
      && LaidOut("", lines[1..])
  }

  lemma {:induction false} TokensLaid(indent: bool, ws: seq<string>)
    requires AllTokens(ws)
    ensures Tokens(Laid(Start(indent), ws)) == ws
    decreases |ws|
  {
    NoTokens(indent);
    if ws != [] {
      var front, last := ws[..|ws| - 1], ws[|ws| - 1];
      assert ws == front + [last] && IsToken(last);
      TokensLaid(indent, front);
      TokensExtended(Laid(Start(indent), front), last);
    }
  }

  lemma OneMore(start: string, ws: seq<string>, w: string)
    requires Room(start, ws)
    requires (ws == [] && start == "") || |Laid(start, ws)| + |w| < SCREEN_WIDTH
    ensures Laid(start, ws + [w]) == Extended(Laid(start, ws), w) && Room(start, ws + [w])
  {
    assert (ws + [w])[..|ws|] == ws;
    forall j | 0 <= j < |ws| ensures (ws + [w])[..j] == ws[..j] {
    }
  }

  /** A finished line in front of the lines that follow it. */
  lemma LaidOutFirst(indent: bool, done: seq<string>, more: seq<string>)
    requires AllTokens(done) && Room(Start(indent), done) && LaidOut("", more)
    requires more != [] ==> Tokens(more[0]) != [] && |Laid(Start(indent), done)| + |Tokens(more[0])[0]| >= SCREEN_WIDTH
    ensures var line := RightStrip(Laid(Start(indent), done));
      Tokens(line) == done && LaidOut(Start(indent), [line] + more)
  {
    var line := RightStrip(Laid(Start(indent), done));
    TokensLaid(indent, done);
    TokensRightStrip(Laid(Start(indent), done));
    assert ([line] + more)[1..] == more;
  }

  /** The lines go on from the words already on the first one. */
  predicate GoOn(indent: bool, done: seq<string>, lines: seq<string>) {
    LaidOut(Start(indent), lines) && (done != [] ==> lines != [] && done <= Tokens(lines[0]))
  }

  lemma LastLine(indent: bool, done: seq<string>)
    requires AllTokens(done) && Room(Start(indent), done)
    ensures GoOn(indent, done, Lines(Laid(Start(indent), done), []))
  {
    var line := Laid(Start(indent), done);
    LaidOutFirst(indent, done, []);
    assert [RightStrip(line)] + [] == [RightStrip(line)];
    if done != [] {
      TokensLaid(indent, done);
    }
  }

  lemma NextLine(indent: bool, done: seq<string>, w: string, more: seq<string>)
    requires AllTokens(done) && Room(Start(indent), done) && GoOn(false, [w], more)
    requires |Laid(Start(indent), done)| + |w| >= SCREEN_WIDTH
    ensures GoOn(indent, done, [RightStrip(Laid(Start(indent), done))] + more)
  {
    LaidOutFirst(indent, done, more);
  }

  lemma OneWord(w: string)
    requires IsToken(w)
    ensures Laid(Start(false), [w]) == w && Room(Start(false), [w]) && AllTokens([w])
  {
    var ws := [w];
    assert ws[..0] == [];
  }

  lemma MoreTokens(ws: seq<string>, w: string)
    requires AllTokens(ws) && IsToken(w)
    ensures AllTokens(ws + [w])
  {
  }

  lemma GoOnShorter(indent: bool, done: seq<string>, w: string, lines: seq<string>)
    requires GoOn(indent, done + [w], lines)
    ensures GoOn(indent, done, lines)
  {
  }

  /** The lines made from one that already has some words. */
  lemma {:induction false} LinesLaidOut(indent: bool, done: seq<string>, ws: seq<string>)
    requires AllTokens(done) && AllTokens(ws) && Room(Start(indent), done)
    ensures GoOn(indent, done, Lines(Laid(Start(indent), done), ws))
    decreases |ws|
  {
    var line := Laid(Start(indent), done);
    if ws == [] {
      LastLine(indent, done);
    } else {
      var w, rest := ws[0], ws[1..];
      assert ws == [w] + rest && IsToken(w) && AllTokens(rest);
      LinesStep(line, w, rest);
      if |line| + |w| >= SCREEN_WIDTH {
        OneWord(w);
        LinesLaidOut(false, [w], rest);
        NextLine(indent, done, w, Lines(w, rest));
      } else {
        OneMore(Start(indent), done, w);
        MoreTokens(done, w);
        LinesLaidOut(indent, done + [w], rest);
        GoOnShorter(indent, done, w, Lines(Extended(line, w), rest));
      }
    }
  }

  lemma Narrow(indent: bool, ws: seq<string>)
    requires Room(Start(indent), ws)
    ensures |ws| == 1 || |Laid(Start(indent), ws)| <= SCREEN_WIDTH + 1
  {
    if |ws| > 1 {
      assert |Laid(Start(indent), ws[..|ws| - 1])| + |ws[|ws| - 1]| < SCREEN_WIDTH;
    }
  }

  lemma {:induction false} WidthOf(indent: bool, lines: seq<string>, k: nat)
    requires LaidOut(Start(indent), lines) && k < |lines|
    ensures |Tokens(lines[k])| == 1 || |lines[k]| <= SCREEN_WIDTH + 1
    decreases |lines|
  {
    if k == 0 {
      Narrow(indent, Tokens(lines[0]));
    } else {
      WidthOf(false, lines[1..], k - 1);
    }
  }

  // ---------- The lines of the text ----------

  /** The stretches of a text between its newlines. */
  function Stretches(s: string): (r: seq<string>)
    ensures r != []
  {
    var n := Span(LineBody, s);
    if n == |s| then [s] else [s[..n]] + Stretches(s[n + 1..])
  }

  lemma FirstStretch(line: string, more: string)
    requires '\n' !in line
    ensures Stretches(line) == [line] && Stretches(line + "\n" + more) == [line] + Stretches(more)
  {
    var s := line + "\n" + more;
    SpanUnique(LineBody, line, |line|);
    SpanUnique(LineBody, s, |line|);
    assert s[..|line|] == line && s[|line| + 1..] == more;
  }

  predicate NoNewlines(lines: seq<string>) {
    forall i | 0 <= i < |lines| :: '\n' !in lines[i]
  }

  lemma {:induction false} StretchesJoined(lines: seq<string>)
    requires lines != [] && NoNewlines(lines)
    ensures Stretches(JoinLines(lines) + "\n") == lines + [""]
    decreases |lines|
  {
    var first, more := lines[0], lines[1..];
    FirstStretch("", "");
    if more == [] {
      FirstStretch(first, "");
      assert first + "\n" + "" == first + "\n";
      assert lines == [first];
    } else {
      StretchesJoined(more);
      Assoc(first + "\n", JoinLines(more), "\n");
      FirstStretch(first, JoinLines(more) + "\n");
      assert [first] + (more + [""]) == lines + [""];
    }
  }

  lemma TokensOneLine(ws: seq<string>)
    requires AllTokens(ws)
    ensures NoNewlines(ws)
  {
    forall i | 0 <= i < |ws| ensures '\n' !in ws[i] {
      TokenIsWord(ws[i]);
      assert ws[i][..TokenLength(ws[i])] == ws[i];
      assert forall k | 0 <= k < |ws[i]| :: Word.Has(ws[i][k]);
    }
  }

  lemma {:induction false} LinesOneLine(line: string, ws: seq<string>)
    requires '\n' !in line && NoNewlines(ws)
    ensures NoNewlines(Lines(line, ws))
    decreases |ws|
  {
    if ws != [] {
      var w, rest := ws[0], ws[1..];
      assert '\n' !in w && NoNewlines(rest);
      if |line| + |w| >= SCREEN_WIDTH {
        LinesOneLine(w, rest);
      } else {
        LinesOneLine(Extended(line, w), rest);
      }
    }
  }

  /** A full stop, a question or an exclamation mark is last, but for a quote. */
  predicate SentenceEnd(w: string) {
    exists n :: 0 <= n < |w| && IsEnd(w[n]) && (n + 1 == |w| || (n + 2 == |w| && IsQuote(w[n + 1])))
  }

  /** The words with two spaces after one that ends a sentence, and one after any other. */
  function Spread(ws: seq<string>): string {
    if ws == [] then ""
    else if |ws| == 1 then ws[0]
    else Spread(ws[..|ws| - 1]) + (if SentenceEnd(ws[|ws| - 2]) then "  " else " ") + ws[|ws| - 1]
  }

  /** A line of words; the first word of an indented one comes after three spaces. */
  function LineText(indent: bool, ws: seq<string>): string {
    if ws == [] then Start(indent) else (if indent then "   " else "") + Spread(ws)
  }

  /** Each word found room on its line; on one that is empty any word does. */
  predicate Fits(indent: bool, ws: seq<string>) {
    forall j | 0 <= j < |ws| && (j > 0 || indent) :: |LineText(indent, ws[..j])| + |ws[j]| < 70
  }

  /** Each line is its words with the right gaps, which all had room there, and could not have taken the first
      word of the next. */
  predicate Filled(indent: bool, lines: seq<string>)
    decreases |lines|
  {
    lines != [] ==>
      var ws := Tokens(lines[0]);
      && lines[0] == (if ws == [] then "" else LineText(indent, ws)) && Fits(indent, ws)
      && (|lines| > 1 ==> Tokens(lines[1]) != [] && |LineText(indent, ws)| + |Tokens(lines[1])[0]| >= 70)
      && Filled(false, lines[1..])
  }

  lemma EndsLast(line: string, w: string)
    requires w != "" && (line == "" || IsSpace(line[|line| - 1]))
    ensures EndsSentence(line + w) <==> SentenceEnd(w)
  {
    if EndsSentence(line + w) {
      var n := if IsEnd(w[|w| - 1]) then |w| - 1 else |w| - 2;
      assert n >= 0 && IsEnd(w[n]);
    }
    if SentenceEnd(w) {
      var n :| 0 <= n < |w| && IsEnd(w[n]) && (n + 1 == |w| || (n + 2 == |w| && IsQuote(w[n + 1])));
      assert (line + w)[|line| + n] == w[n];
    }
  }

  /** What stands before the last word of a line. */
  function Before(indent: bool, ws: seq<string>): (r: string)
    requires ws != []
    ensures r == "" || IsSpace(r[|r| - 1])
  {
    var head := if indent then "   " else "";
    if |ws| == 1 then head
    else head + Spread(ws[..|ws| - 1]) + (if SentenceEnd(ws[|ws| - 2]) then "  " else " ")
  }

  lemma LineTextLast(indent: bool, ws: seq<string>)
    requires ws != []
    ensures LineText(indent, ws) == Before(indent, ws) + ws[|ws| - 1]
  {
    if |ws| > 1 {
      var head, gap := if indent then "   " else "", if SentenceEnd(ws[|ws| - 2]) then "  " else " ";
      Assoc(head, Spread(ws[..|ws| - 1]) + gap, ws[|ws| - 1]);
      Assoc(head, Spread(ws[..|ws| - 1]), gap);
    }
  }

  lemma {:induction false} LaidText(indent: bool, ws: seq<string>)
    requires AllTokens(ws)
    ensures Laid(Start(indent), ws) == LineText(indent, ws)
    decreases |ws|
  {
    if ws != [] {
      var front, last := LastOff(ws);
      LaidText(indent, front);
      LaidMore(indent, front, last);
    }
  }

  lemma LastOff(ws: seq<string>) returns (front: seq<string>, last: string)
    requires AllTokens(ws) && ws != []
    ensures ws == front + [last] && AllTokens(front) && IsToken(last)
  {
    front, last := ws[..|ws| - 1], ws[|ws| - 1];
  }

  lemma LaidMore(indent: bool, ws: seq<string>, w: string)
    requires AllTokens(ws) && Laid(Start(indent), ws) == LineText(indent, ws)
    ensures Laid(Start(indent), ws + [w]) == LineText(indent, ws + [w])
  {
    assert (ws + [w])[..|ws|] == ws;
    LineExtended(indent, ws, w);
  }

  lemma LineEnds(indent: bool, ws: seq<string>)
    requires AllTokens(ws) && ws != []
    ensures LineText(indent, ws) != "" && (EndsSentence(LineText(indent, ws)) <==> SentenceEnd(ws[|ws| - 1]))
  {
    assert IsToken(ws[|ws| - 1]);
    LineTextLast(indent, ws);
    EndsLast(Before(indent, ws), ws[|ws| - 1]);
  }

  lemma LineExtended(indent: bool, ws: seq<string>, w: string)
    requires AllTokens(ws)
    ensures LineText(indent, ws + [w]) == Extended(LineText(indent, ws), w)
  {
    var all := ws + [w];
    assert all[..|all| - 1] == ws;
    LineTextLast(indent, all);
    if ws == [] {
      assert "  " + " " == "   ";
      assert !EndsSentence("  ");
    } else {
      LineEnds(indent, ws);
      assert all[|all| - 2] == ws[|ws| - 1];
    }
  }

  lemma StripNone(line: string)
    requires line == "" || !IsSpace(line[|line| - 1])
    ensures RightStrip(line) == line
  {
  }

  lemma TokenLast(w: string)
    requires IsToken(w)
    ensures !IsSpace(w[|w| - 1])
  {
    TokenIsWord(w);
    assert w[..TokenLength(w)] == w && Word.Has(w[|w| - 1]);
  }

  lemma LineStripped(indent: bool, ws: seq<string>)
    requires AllTokens(ws)
    ensures RightStrip(LineText(indent, ws)) == if ws == [] then "" else LineText(indent, ws)
  {
    if ws != [] {
      assert IsToken(ws[|ws| - 1]);
      TokenLast(ws[|ws| - 1]);
      LineTextLast(indent, ws);
      StripNone(LineText(indent, ws));
    } else if indent {
      assert "  "[..1] == " " && " "[..0] == "";
    }
  }

  lemma RoomFits(indent: bool, ws: seq<string>)
    requires AllTokens(ws) && Room(Start(indent), ws)
    ensures Fits(indent, ws)
  {
    forall j | 0 <= j < |ws| && (j > 0 || indent) ensures |LineText(indent, ws[..j])| + |ws[j]| < 70 {
      LaidText(indent, ws[..j]);
      assert |Laid(Start(indent), ws[..j])| + |ws[j]| < SCREEN_WIDTH;
    }
  }

  lemma {:induction false} LaidOutFilled(indent: bool, lines: seq<string>)
    requires LaidOut(Start(indent), lines)
    ensures Filled(indent, lines)
    decreases |lines|
  {
    if lines != [] {
      var ws := Tokens(lines[0]);
      TokensAre(lines[0]);
      LaidText(indent, ws);
      LineStripped(indent, ws);
      RoomFits(indent, ws);
      LaidOutFilled(false, lines[1..]);
    }
  }

  /** The text is laid out in the given stretches, the last of them empty: each line holds its words with the
      right gaps and as many as it has room for, and is at most 71 characters wide unless it is one word. */
  predicate WellLaid(indent: bool, stretches: seq<string>) {
    && |stretches| > 1 && stretches[|stretches| - 1] == ""
    && var lines := stretches[..|stretches| - 1];
    && Filled(indent, lines)
    && forall k | 0 <= k < |lines| :: |Tokens(lines[k])| == 1 || |lines[k]| <= 71
  }

  lemma LaidIsWell(indent: bool, lines: seq<string>)
    requires lines != [] && LaidOut(Start(indent), lines)
    ensures WellLaid(indent, lines + [""])
  {
    var stretches := lines + [""];
    assert stretches[..|stretches| - 1] == lines;
    LaidOutFilled(indent, lines);
    forall k | 0 <= k < |lines| ensures |Tokens(lines[k])| == 1 || |lines[k]| <= 71 {
      WidthOf(indent, lines, k);
    }
  }

  lemma NoLines()
    ensures Stretches("" + "\n") == ["", ""] && WellLaid(false, ["", ""])
  {
    FirstStretch("", "");
    assert "" + "\n" + "" == "\n" && [""] + [""] == ["", ""];
    assert [""][1..] == [];
    LaidIsWell(false, [""]);
  }

  /** How a formatted description is laid out, read off its text: cut at its newlines it is full lines, each
      of at most 71 characters but for single words, and its last line is ended too. */
  lemma FormattedLayout(original: string, indent: bool)
    ensures WellLaid(indent, Stretches(Formatted(original, indent)))
  {
    var kept := Kept(Tokens(original), "");
    var lines := Lines(Start(indent), kept);
    TokensAre(original);
    KeptSettled(Tokens(original), "");
    LinesLaidOut(indent, [], kept);
    if lines == [] {
      NoLines();
    } else {
      TokensOneLine(kept);
      LinesOneLine(Start(indent), kept);
      StretchesJoined(lines);
      LaidIsWell(indent, lines);
    }
  }

  lemma KeptStep(words: seq<string>, i: nat, last: string)
    requires i < |words|
    ensures Kept(words[i..], last) ==
      if words[i] == "very" || words[i] == last then Kept(words[i + 1..], last)
      else [words[i]] + Kept(words[i + 1..], words[i])
  {
    assert words[i..][1..] == words[i + 1..];
  }

  lemma LinesStep(line: string, w: string, ws: seq<string>)
    ensures Lines(line, [w] + ws) ==
      if |line| + |w| >= SCREEN_WIDTH then [RightStrip(line)] + Lines(w, ws) else Lines(Extended(line, w), ws)
  {
    assert ([w] + ws)[1..] == ws;
  }

  lemma Grow(lines: seq<string>, x: string, rest: seq<string>)
    ensures lines + ([x] + rest) == lines + [x] + rest
  {
  }

  lemma NoMore(lines: seq<string>, line: string)
    ensures lines + Lines(line, []) == if line == "" then lines else lines + [RightStrip(line)]
  {
  }

  /** Puts a word on the line at hand or, if there is no room, on a new one. */
  method PutWord(lines: seq<string>, line: string, word: string) returns (lines': seq<string>, line': string)
    ensures if |line| + |word| >= SCREEN_WIDTH then lines' == lines + [RightStrip(line)] && line' == word
            else lines' == lines && line' == Extended(line, word)
  {
    lines', line' := lines, line;
    if |line| + |word| >= SCREEN_WIDTH {
      lines' := lines' + [RightStrip(line)];
      line' := word;
    } else if line == "" {
      line' := word;
    } else if EndsSentence(line) {
      line' := line' + "  " + word;
    } else {
      line' := line' + " " + word;
    }
  }

  /** Lays out the words that are kept. */
  method LayOut(words: seq<string>, indent: bool) returns (lines: seq<string>)
    ensures lines == Lines(Start(indent), Kept(words, ""))
  {
    lines := [];
    var line, lastWord := Start(indent), "";
    ghost var all := Lines(line, Kept(words, lastWord));
    assert words[0..] == words;
    for i := 0 to |words|
      invariant all == lines + Lines(line, Kept(words[i..], lastWord))
    {
      var word := words[i];
      KeptStep(words, i, lastWord);
      if word == "very" || word == lastWord {
        continue;
      }
      lastWord := word;
      ghost var ws := Kept(words[i + 1..], word);
      LinesStep(line, word, ws);
      Grow(lines, RightStrip(line), Lines(word, ws));
      lines, line := PutWord(lines, line, word);
    }
    assert words[|words|..] == [];
    NoMore(lines, line);
    if line != "" {
      lines := lines + [RightStrip(line)];
    }
  }

  method FormatDesc(original: string, indent: bool) returns (result: string)
    ensures result == Formatted(original, indent)
  {
    SplitText(original);
    var lines := LayOut(Words(Spaced(Strip(original))), indent);
    result := JoinLines(lines) + "\n";
  }

  // ---------- What the formatted text holds ----------

  /** No tilde and no carriage return. */
  predicate Clean(s: string) {
    '~' !in s && '\r' !in s
  }

  predicate AllClean(ws: seq<string>) {
    forall i | 0 <= i < |ws| :: Clean(ws[i])
  }

  lemma CleanConcat(a: string, b: string)
    requires Clean(a) && Clean(b)
    ensures Clean(a + b)
  {
  }

  lemma NoTilde(s: string, n: nat)
    requires '~' !in s && n <= |s|
    ensures '~' !in s[..n] && '~' !in s[n..]
  {
  }

  lemma {:induction false} TokensClean(s: string)
    requires '~' !in s
    ensures AllClean(Tokens(s))
    decreases |s|
  {
    if s != "" {
      NoTilde(s, 1);
      if IsSpace(s[0]) {
        TokensClean(s[1..]);
      } else {
        var n := TokenLength(s);
        TokenIsWord(s);
        NoTilde(s, n);
        TokensClean(s[n..]);
        assert '\r' !in s[..n] by {
          assert forall i | 0 <= i < n :: Word.Has(s[..n][i]);
        }
      }
    }
  }

  lemma {:induction false} KeptClean(ws: seq<string>, last: string)
    requires AllClean(ws)
    ensures AllClean(Kept(ws, last))
    decreases |ws|
  {
    if ws != [] {
      assert Clean(ws[0]) && AllClean(ws[1..]);
      KeptClean(ws[1..], if ws[0] == "very" then last else ws[0]);
    }
  }

  lemma ExtendedClean(line: string, w: string)
    requires Clean(line) && Clean(w)
    ensures Clean(Extended(line, w)) && Clean(RightStrip(line))
  {
    CleanConcat(line, "  ");
    CleanConcat(line, " ");
    CleanConcat(line + "  ", w);
    CleanConcat(line + " ", w);
  }

  lemma {:induction false} LinesClean(line: string, ws: seq<string>)
    requires Clean(line) && AllClean(ws)
    ensures AllClean(Lines(line, ws))
    decreases |ws|
  {
    ExtendedClean(line, if ws == [] then "" else ws[0]);
    if ws != [] {
      assert Clean(ws[0]) && AllClean(ws[1..]);
      if |line| + |ws[0]| >= SCREEN_WIDTH {
        LinesClean(ws[0], ws[1..]);
      } else {
        LinesClean(Extended(line, ws[0]), ws[1..]);
      }
    }
  }

  lemma {:induction false} JoinClean(lines: seq<string>)
    requires AllClean(lines)
    ensures Clean(JoinLines(lines))
    decreases |lines|
  {
    if lines != [] {
      assert Clean(lines[0]) && AllClean(lines[1..]);
      JoinClean(lines[1..]);
      CleanConcat(lines[0], "\n");
      CleanConcat(lines[0] + "\n", JoinLines(lines[1..]));
    }
  }

  /** A formatted text holds no carriage return, and no tilde if it was made from a text without. */
  lemma FormattedClean(original: string, indent: bool)
    requires '~' !in original
    ensures Clean(Formatted(original, indent)) && Carried(Formatted(original, indent))
  {
    var ws := Kept(Tokens(original), "");
    TokensClean(original);
    KeptClean(Tokens(original), "");
    LinesClean(Start(indent), ws);
    JoinClean(Lines(Start(indent), ws));
    CleanConcat(JoinLines(Lines(Start(indent), ws)), "\n");
  }
}
