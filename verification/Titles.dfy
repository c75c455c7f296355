/** Titles put into title case: full stops at line ends go, and words get capitals or lose them. */
module Titles {
  import opened Text

  const NOCAP_WORDS: seq<string> :=
    ["a", "an", "is", "if", "or", "the", "of", "in", "into", "to", "and", "your", "on", "off", "by", "out", "no", "it",
     "at", "as", "for"]

  // ---------- Full stops at line ends ----------

  /** The length of a run of full stops at the start of s. */
  function Dots(s: string): (n: nat)
    ensures n <= |s|
    ensures forall i | 0 <= i < n :: s[i] == '.'
    ensures n < |s| ==> s[n] != '.'
  {
    if s == "" || s[0] != '.' then 0 else 1 + Dots(s[1..])
  }

  predicate AtLineEnd(s: string) {
    s == "" || s[0] == '\n'
  }

  /** Without the runs of full stops that end a line. */
  function StripDots(s: string): (r: string)
    ensures |r| <= |s|
  {
    if s == "" then ""
    else if s[0] == '.' && AtLineEnd(s[Dots(s)..]) then StripDots(s[Dots(s)..])
    else [s[0]] + StripDots(s[1..])
  }

  /** No line ends in a full stop. */
  predicate NoEndDots(s: string) {
    forall i | 0 <= i < |s| && s[i] == '.' :: i + 1 < |s| && s[i + 1] != '\n'
  }

  lemma {:induction false} StripDotsNone(s: string)
    ensures NoEndDots(StripDots(s))
    ensures s != "" && s[0] == '.' && !AtLineEnd(s[Dots(s)..]) ==> StripDots(s) != "" && StripDots(s)[0] == '.'
    ensures s != "" && s[0] != '.' ==> StripDots(s) != "" && StripDots(s)[0] == s[0]
    decreases |s|
  {
    if s != "" {
      var n := Dots(s);
      if s[0] == '.' && AtLineEnd(s[n..]) {
        StripDotsNone(s[n..]);
      } else {
        StripDotsNone(s[1..]);
        assert s[0] == '.' ==> s[1..][n - 1..] == s[n..] && Dots(s[1..]) == n - 1;
      }
    }
  }

  lemma EndsLine(s: string)
    requires s != "" && s[0] == '.' && AtLineEnd(s[Dots(s)..])
    ensures !NoEndDots(s)
  {
    assert s[Dots(s) - 1] == '.';
  }

  lemma {:induction false} StripDotsSame(s: string)
    requires NoEndDots(s)
    ensures StripDots(s) == s
    decreases |s|
  {
    if s != "" {
      var n := Dots(s);
      if s[0] == '.' && AtLineEnd(s[n..]) {
        EndsLine(s);
      } else {
        NoEndDotsTail(s);
        StripDotsSame(s[1..]);
      }
    }
  }

  lemma NoEndDotsTail(s: string)
    requires s != "" && NoEndDots(s)
    ensures NoEndDots(s[1..])
  {
    var u := s[1..];
    forall i | 0 <= i < |u| && u[i] == '.' ensures i + 1 < |u| && u[i + 1] != '\n' {
      assert s[i + 1] == '.';
    }
  }

  // ---------- Words and what is between them ----------

  predicate IsUpper(c: char) { 'A' <= c <= 'Z' }
  predicate IsLower(c: char) { 'a' <= c <= 'z' }

  /** The characters of words: letters and the apostrophe. */
  predicate IsWordChar(c: char) { IsUpper(c) || IsLower(c) || c == '\'' }

  function Low(c: char): char { if IsUpper(c) then c - 'A' + 'a' else c }
  function Up(c: char): char { if IsLower(c) then c - 'a' + 'A' else c }

  function Lower(s: string): (r: string)
    ensures |r| == |s| && forall i | 0 <= i < |s| :: r[i] == Low(s[i])
  {
    seq(|s|, i requires 0 <= i < |s| => Low(s[i]))
  }

  /** The first letter large and the others small. */
  function Capital(s: string): (r: string)
    ensures |r| == |s|
  {
    if s == "" then "" else [Up(s[0])] + Lower(s[1..])
  }

  /** The length of a run of word characters, or of others, at the start of s. */
  function RunLength(word: bool, s: string): (n: nat)
    ensures n <= |s|
    ensures forall i | 0 <= i < n :: IsWordChar(s[i]) == word
    ensures n < |s| ==> IsWordChar(s[n]) != word
  {
    if s == "" || IsWordChar(s[0]) != word then 0 else 1 + RunLength(word, s[1..])
  }

  /** In a word that starts with Mc the third character becomes a c. */
  function McFixed(w: string): (r: string)
    ensures |r| == |w|
  {
    if |w| > 2 && w[0] == 'M' && w[1] == 'c' then "Mcc" + w[3..] else w
  }

  /** A word in title case; force is set at the start and after the end of a sentence. */
  function CasedWord(w: string, force: bool): (r: string)
    ensures |r| == |w|
  {
    McFixed(if !force && Lower(w) in NOCAP_WORDS then Lower(w) else Capital(w))
  }

  predicate HasStop(s: string) {
    '.' in s || '?' in s || '!' in s
  }

  /** The text in title case, from a word on. */
  function Cased(s: string, force: bool): (r: string)
    decreases |s|
  {
    var n := RunLength(true, s);
    if n == |s| then CasedWord(s, force)
    else
      var rest := s[n..];
      var m := RunLength(false, rest);
      CasedWord(s[..n], force) + rest[..m] + Cased(rest[m..], HasStop(rest[..m]))
  }

  function Capitalized(s: string): string {
    Cased(StripDots(s), true)
  }

  // ---------- What changes ----------

  /** The same but for the letters in words. */
  predicate SameShape(a: string, b: string) {
    |a| == |b| && forall i | 0 <= i < |a| :: a[i] == b[i] || (IsWordChar(a[i]) && IsWordChar(b[i]))
  }

  lemma WordShape(w: string, force: bool)
    requires AllWordChars(w)
    ensures SameShape(w, CasedWord(w, force)) && AllWordChars(CasedWord(w, force))
  {
    CapitalShape(w);
    McShape(if !force && Lower(w) in NOCAP_WORDS then Lower(w) else Capital(w));
  }

  predicate AllWordChars(w: string) {
    forall i | 0 <= i < |w| :: IsWordChar(w[i])
  }

  lemma CapitalShape(w: string)
    requires AllWordChars(w)
    ensures AllWordChars(Lower(w)) && AllWordChars(Capital(w))
  {
    CapitalAt(w);
    assert forall c | IsWordChar(c) :: IsWordChar(Low(c)) && IsWordChar(Up(c));
    forall i | 0 <= i < |w| ensures IsWordChar(Lower(w)[i]) && IsWordChar(Capital(w)[i]) {
      assert IsWordChar(w[i]);
    }
  }

  lemma McShape(w: string)
    requires AllWordChars(w)
    ensures AllWordChars(McFixed(w))
  {
  }

  lemma ShapeConcat(a: string, b: string, c: string, d: string)
    requires SameShape(a, b) && SameShape(c, d)
    ensures SameShape(a + c, b + d)
  {
  }

  lemma ThreeShapes(w: string, w': string, gap: string, more: string, more': string)
    requires SameShape(w, w') && SameShape(more, more')
    ensures SameShape(w + gap + more, w' + gap + more')
  {
    ShapeConcat(w, w', gap, gap);
    ShapeConcat(w + gap, w' + gap, more, more');
  }

  lemma ThreeParts(s: string, n: nat, m: nat)
    requires n <= |s| && m <= |s[n..]|
    ensures s == s[..n] + s[n..][..m] + s[n..][m..]
  {
  }

  lemma {:induction false} CasedShape(s: string, force: bool)
    ensures SameShape(s, Cased(s, force))
    decreases |s|
  {
    var n := RunLength(true, s);
    WordShape(s[..n], force);
    if n == |s| {
      assert s[..n] == s;
    } else {
      var rest := s[n..];
      var m := RunLength(false, rest);
      CasedShape(rest[m..], HasStop(rest[..m]));
      ThreeParts(s, n, m);
      ThreeShapes(s[..n], CasedWord(s[..n], force), rest[..m], rest[m..], Cased(rest[m..], HasStop(rest[..m])));
    }
  }

  // ---------- Once is enough ----------

  lemma LowerTwice(w: string)
    ensures Lower(Lower(w)) == Lower(w) && Lower(Capital(w)) == Lower(w) && Capital(Lower(w)) == Capital(w)
    ensures Capital(Capital(w)) == Capital(w)
  {
    CapitalAt(w);
    CapitalAt(Lower(w));
    CapitalAt(Capital(w));
  }

  lemma CapitalAt(w: string)
    ensures forall i | 0 <= i < |w| :: Capital(w)[i] == if i == 0 then Up(w[i]) else Low(w[i])
  {
  }

  lemma McCapital(w: string)
    ensures Capital(McFixed(Capital(w))) == McFixed(Capital(w))
    ensures McFixed(McFixed(w)) == McFixed(w)
  {
    var c := Capital(w);
    if |c| > 2 && c[0] == 'M' && c[1] == 'c' {
      assert c[3..] == Lower(w[3..]);
    } else {
      LowerTwice(w);
    }
  }

  /** No word that stays small starts with an m. */
  lemma NoSmallM(w: string)
    requires w != "" && w[0] == 'm'
    ensures w !in NOCAP_WORDS
  {
  }

  lemma SmallWord(w: string)
    requires Lower(w) in NOCAP_WORDS
    ensures McFixed(Lower(w)) == Lower(w) && McFixed(Capital(w)) == Capital(w)
  {
    if w != "" && Low(w[0]) == 'm' {
      NoSmallM(Lower(w));
    }
  }

  lemma LargeWord(w: string)
    requires Lower(w) !in NOCAP_WORDS
    ensures Lower(McFixed(Capital(w))) !in NOCAP_WORDS
  {
    var c := Capital(w);
    LowerTwice(w);
    if |c| > 2 && c[0] == 'M' && c[1] == 'c' {
      NoSmallM(Lower(McFixed(c)));
    }
  }

  lemma WordTwice(w: string, force: bool)
    ensures CasedWord(CasedWord(w, force), force) == CasedWord(w, force)
  {
    LowerTwice(w);
    McCapital(w);
    if Lower(w) in NOCAP_WORDS {
      SmallWord(w);
    } else {
      LargeWord(w);
    }
  }

  lemma RunLengthIs(word: bool, s: string, n: nat)
    requires n <= |s| && (forall i | 0 <= i < n :: IsWordChar(s[i]) == word) && (n < |s| ==> IsWordChar(s[n]) != word)
    ensures RunLength(word, s) == n
  {
  }

  /** A text in title case, cut where its words and gaps end. */
  lemma CasedParts(w: string, gap: string, more: string, force: bool)
    requires forall i | 0 <= i < |w| :: IsWordChar(w[i])
    requires gap != "" && forall i | 0 <= i < |gap| :: !IsWordChar(gap[i])
    requires more != "" ==> IsWordChar(more[0])
    ensures Cased(w + gap + more, force) == CasedWord(w, force) + gap + Cased(more, HasStop(gap))
  {
    var s := w + gap + more;
    RunLengthIs(true, s, |w|);
    var rest := s[|w|..];
    assert rest == gap + more && s[..|w|] == w;
    RunLengthIs(false, rest, |gap|);
    assert rest[..|gap|] == gap && rest[|gap|..] == more;
  }

  lemma OneWordCased(w: string, force: bool)
    requires AllWordChars(w)
    ensures Cased(w, force) == CasedWord(w, force)
  {
    RunLengthIs(true, w, |w|);
  }

  lemma PartsTwice(w: string, gap: string, more: string, force: bool)
    requires AllWordChars(w) && gap != "" && (forall i | 0 <= i < |gap| :: !IsWordChar(gap[i]))
    requires more != "" ==> IsWordChar(more[0])
    requires var stop := HasStop(gap); Cased(Cased(more, stop), stop) == Cased(more, stop)
    ensures var r := CasedWord(w, force) + gap + Cased(more, HasStop(gap)); Cased(r, force) == r
  {
    WordShape(w, force);
    WordTwice(w, force);
    CasedShape(more, HasStop(gap));
    CasedParts(CasedWord(w, force), gap, Cased(more, HasStop(gap)), force);
  }

  lemma {:induction false} CasedTwice(s: string, force: bool)
    ensures Cased(Cased(s, force), force) == Cased(s, force)
    decreases |s|
  {
    assert s[0..] == s;
    var a, b := NextParts(s, 0, force);
    var w := s[0..a];
    if a == |s| {
      WordShape(w, force);
      WordTwice(w, force);
      OneWordCased(CasedWord(w, force), force);
      assert CasedWord(w, force) + "" == CasedWord(w, force);
    } else {
      CasedTwice(s[b..], HasStop(s[a..b]));
      PartsTwice(w, s[a..b], s[b..], force);
      Assoc(CasedWord(w, force), s[a..b], Cased(s[b..], HasStop(s[a..b])));
    }
  }

  lemma ShapeDots(a: string, b: string)
    requires SameShape(a, b) && NoEndDots(a)
    ensures NoEndDots(b)
  {
    forall i | 0 <= i < |b| && b[i] == '.' ensures i + 1 < |b| && b[i + 1] != '\n' {
      assert a[i] == '.';
    }
  }

  /** A title that has been put into title case stays as it is. */
  lemma CapitalizedTwice(s: string)
    ensures Capitalized(Capitalized(s)) == Capitalized(s)
  {
    var d := StripDots(s);
    StripDotsNone(s);
    CasedShape(d, true);
    ShapeDots(d, Capitalized(s));
    StripDotsSame(Capitalized(s));
    CasedTwice(d, true);
  }

  // ---------- Which letters are large ----------

  /** Where the word around position i begins. */
  function WordStart(d: string, i: nat): (p: nat)
    requires i < |d| && IsWordChar(d[i])
    ensures p <= i && (forall k | p <= k <= i :: IsWordChar(d[k])) && (p > 0 ==> !IsWordChar(d[p - 1]))
    decreases i
  {
    if i > 0 && IsWordChar(d[i - 1]) then WordStart(d, i - 1) else i
  }

  /** Where the word that has begun by position i ends. */
  function WordEnd(d: string, i: nat): (q: nat)
    requires i <= |d|
    ensures i <= q <= |d| && (forall k | i <= k < q :: IsWordChar(d[k])) && (q < |d| ==> !IsWordChar(d[q]))
    decreases |d| - i
  {
    if i < |d| && IsWordChar(d[i]) then WordEnd(d, i + 1) else i
  }

  /** A sentence ends in the gap before position p. */
  predicate AfterStop(d: string, p: nat)
    requires p <= |d|
    decreases p
  {
    p > 0 && !IsWordChar(d[p - 1]) && (IsSentenceEnd(d[p - 1]) || AfterStop(d, p - 1))
  }

  predicate IsSentenceEnd(c: char) {
    c == '.' || c == '?' || c == '!'
  }

  /** The word from p to q stays small: one of the little words, neither first nor after the end of a sentence. */
  predicate StaysSmall(d: string, p: nat, q: nat)
    requires p <= q <= |d|
  {
    p > 0 && !AfterStop(d, p) && Lower(d[p..q]) in NOCAP_WORDS
  }

  /** The word from p to q starts with Mc, whichever letters of it are large, and goes on. */
  predicate StartsMc(d: string, p: nat, q: nat)
    requires p <= q <= |d|
  {
    q - p > 2 && (d[p] == 'M' || d[p] == 'm') && (d[p + 1] == 'C' || d[p + 1] == 'c')
  }

  /** The character at position i of a text in title case. */
  function TitleChar(d: string, i: nat): char
    requires i < |d|
  {
    if !IsWordChar(d[i]) then d[i]
    else
      var p := WordStart(d, i);
      var q := WordEnd(d, i);
      if StaysSmall(d, p, q) then Low(d[i])
      else if i == p then Up(d[i])
      else if i == p + 2 && StartsMc(d, p, q) then 'c'
      else Low(d[i])
  }

  lemma WordStartIs(d: string, p: nat, i: nat)
    requires p <= i < |d| && (forall k | p <= k <= i :: IsWordChar(d[k])) && (p > 0 ==> !IsWordChar(d[p - 1]))
    ensures WordStart(d, i) == p
    decreases i
  {
  }

  lemma WordEndIs(d: string, i: nat, q: nat)
    requires i <= q <= |d| && (forall k | i <= k < q :: IsWordChar(d[k])) && (q < |d| ==> !IsWordChar(d[q]))
    ensures WordEnd(d, i) == q
    decreases q - i
  {
  }

  /** The character at k of a word by itself. */
  function WordChar(w: string, small: bool, k: nat): char
    requires k < |w|
  {
    if small then Low(w[k])
    else if k == 0 then Up(w[k])
    else if k == 2 && StartsMc(w, 0, |w|) then 'c'
    else Low(w[k])
  }

  lemma SmallAt(w: string, k: nat)
    requires k < |w| && Lower(w) in NOCAP_WORDS
    ensures CasedWord(w, false)[k] == WordChar(w, true, k)
  {
    SmallWord(w);
  }

  lemma LargeAt(w: string, force: bool, k: nat)
    requires k < |w| && AllWordChars(w) && (force || Lower(w) !in NOCAP_WORDS)
    ensures CasedWord(w, force)[k] == WordChar(w, false, k)
  {
    var c := Capital(w);
    assert CasedWord(w, force) == McFixed(c);
    CapitalAt(w);
    if |w| > 2 {
      assert IsWordChar(w[0]) && IsWordChar(w[1]);
      assert c[0] == Up(w[0]) && c[1] == Low(w[1]);
      assert (c[0] == 'M' && c[1] == 'c') <==> StartsMc(w, 0, |w|);
    }
  }

  lemma TitleCharIs(d: string, p: nat, q: nat, i: nat)
    requires p <= i < q <= |d| && (forall k | p <= k < q :: IsWordChar(d[k]))
    requires (p > 0 ==> !IsWordChar(d[p - 1])) && (q < |d| ==> !IsWordChar(d[q]))
    ensures TitleChar(d, i) == WordChar(d[p..q], StaysSmall(d, p, q), i - p)
  {
    WordStartIs(d, p, i);
    WordEndIs(d, i, q);
    var w := d[p..q];
    assert w[i - p] == d[i];
    if q - p > 2 {
      assert w[0] == d[p] && w[1] == d[p + 1];
    }
  }

  /** The letters of r are those of the word w, small throughout or large at the beginning. */
  predicate LettersOf(w: string, small: bool, r: string) {
    |r| == |w| && forall k | 0 <= k < |w| :: r[k] == WordChar(w, small, k)
  }

  lemma WordLetters(w: string, force: bool, small: bool)
    requires AllWordChars(w) && (small <==> !force && Lower(w) in NOCAP_WORDS)
    ensures LettersOf(w, small, CasedWord(w, force))
  {
    forall k | 0 <= k < |w| ensures CasedWord(w, force)[k] == WordChar(w, small, k) {
      CasedAt(w, force, small, k);
    }
  }

  lemma CasedAt(w: string, force: bool, small: bool, k: nat)
    requires k < |w| && AllWordChars(w) && (small <==> !force && Lower(w) in NOCAP_WORDS)
    ensures CasedWord(w, force)[k] == WordChar(w, small, k)
  {
    if small {
      SmallAt(w, k);
    } else {
      LargeAt(w, force, k);
    }
  }

  lemma {:induction false} GapStop(d: string, a: nat, b: nat)
    requires a <= b <= |d| && (forall k | a <= k < b :: !IsWordChar(d[k])) && (a > 0 ==> IsWordChar(d[a - 1]))
    ensures AfterStop(d, b) <==> HasStop(d[a..b])
    decreases b - a
  {
    if a < b {
      GapStop(d, a, b - 1);
      assert d[a..b] == d[a..b - 1] + [d[b - 1]];
    }
  }

  /** A word of the text or a gap begins at k. */
  predicate BeginsAt(d: string, k: nat) {
    k <= |d| && (k > 0 ==> !IsWordChar(d[k - 1]) && (k < |d| ==> IsWordChar(d[k])))
  }

  /** The next word and, if the text goes on, the gap after it. */
  lemma NextParts(d: string, k: nat, force: bool) returns (a: nat, b: nat)
    requires k <= |d|
    ensures k <= a <= b <= |d| && (forall j | k <= j < a :: IsWordChar(d[j]))
    ensures (forall j | a <= j < b :: !IsWordChar(d[j])) && (b < |d| ==> a < b && IsWordChar(d[b]))
    ensures a < |d| ==> a < b
    ensures Cased(d[k..], force) ==
      CasedWord(d[k..a], force) + if a == |d| then "" else d[a..b] + Cased(d[b..], HasStop(d[a..b]))
  {
    a := WordFrom(d, k);
    b := a;
    if a == |d| {
      CasedWhole(d, k, force);
    } else {
      b := GapFrom(d, a);
      CasedInParts(d, k, a, b, force);
    }
  }

  lemma WordFrom(d: string, k: nat) returns (a: nat)
    requires k <= |d|
    ensures k <= a <= |d| && (forall j | k <= j < a :: IsWordChar(d[j])) && (a < |d| ==> !IsWordChar(d[a]))
    ensures a - k == RunLength(true, d[k..])
  {
    a := k + RunLength(true, d[k..]);
    RunFrom(d, k, true);
  }

  lemma GapFrom(d: string, a: nat) returns (b: nat)
    requires a < |d| && !IsWordChar(d[a])
    ensures a < b <= |d| && (forall j | a <= j < b :: !IsWordChar(d[j])) && (b < |d| ==> IsWordChar(d[b]))
  {
    b := a + RunLength(false, d[a..]);
    RunFrom(d, a, false);
  }

  lemma CasedWhole(d: string, k: nat, force: bool)
    requires k <= |d| && RunLength(true, d[k..]) == |d| - k
    ensures Cased(d[k..], force) == CasedWord(d[k..|d|], force) + ""
  {
    assert d[k..|d|] == d[k..];
  }

  lemma ThreeSlices(d: string, k: nat, a: nat, b: nat)
    requires k <= a <= b <= |d|
    ensures d[k..] == d[k..a] + d[a..b] + d[b..]
  {
  }

  lemma CasedInParts(d: string, k: nat, a: nat, b: nat, force: bool)
    requires k <= a < b <= |d| && (forall j | k <= j < a :: IsWordChar(d[j]))
    requires (forall j | a <= j < b :: !IsWordChar(d[j])) && (b < |d| ==> IsWordChar(d[b]))
    ensures Cased(d[k..], force) == CasedWord(d[k..a], force) + (d[a..b] + Cased(d[b..], HasStop(d[a..b])))
  {
    ThreeSlices(d, k, a, b);
    CasedParts(d[k..a], d[a..b], d[b..], force);
    Assoc(CasedWord(d[k..a], force), d[a..b], Cased(d[b..], HasStop(d[a..b])));
  }

  /** The characters of r are those of the title from k to b. */
  predicate RightIn(d: string, k: nat, b: nat, r: string) {
    k <= b <= |d| && |r| == b - k && forall i | k <= i < b :: r[i - k] == TitleChar(d, i)
  }

  lemma RightJoin(d: string, k: nat, a: nat, b: nat, u: string, v: string)
    requires RightIn(d, k, a, u) && RightIn(d, a, b, v)
    ensures RightIn(d, k, b, u + v)
  {
    forall i | k <= i < b ensures (u + v)[i - k] == TitleChar(d, i) {
      assert i < a ==> (u + v)[i - k] == u[i - k];
      assert i >= a ==> (u + v)[i - k] == v[i - a];
    }
  }

  lemma WordRight(d: string, k: nat, a: nat)
    requires k <= a <= |d| && (forall j | k <= j < a :: IsWordChar(d[j]))
    requires (k > 0 ==> !IsWordChar(d[k - 1])) && (a < |d| ==> !IsWordChar(d[a]))
    ensures RightIn(d, k, a, CasedWord(d[k..a], k == 0 || AfterStop(d, k)))
  {
    WordLetters(d[k..a], k == 0 || AfterStop(d, k), StaysSmall(d, k, a));
    LettersRight(d, k, a, CasedWord(d[k..a], k == 0 || AfterStop(d, k)));
  }

  lemma LettersRight(d: string, k: nat, a: nat, r: string)
    requires k <= a <= |d| && (forall j | k <= j < a :: IsWordChar(d[j]))
    requires (k > 0 ==> !IsWordChar(d[k - 1])) && (a < |d| ==> !IsWordChar(d[a]))
    requires LettersOf(d[k..a], StaysSmall(d, k, a), r)
    ensures RightIn(d, k, a, r)
  {
    forall i | k <= i < a ensures r[i - k] == TitleChar(d, i) {
      TitleCharIs(d, k, a, i);
    }
  }

  lemma GapRight(d: string, a: nat, b: nat)
    requires a <= b <= |d| && forall j | a <= j < b :: !IsWordChar(d[j])
    ensures RightIn(d, a, b, d[a..b])
  {
  }

  lemma {:induction false} CasedFrom(d: string, k: nat)
    requires BeginsAt(d, k)
    ensures RightIn(d, k, |d|, Cased(d[k..], k == 0 || AfterStop(d, k)))
    decreases |d| - k
  {
    var force := k == 0 || AfterStop(d, k);
    var a, b := NextParts(d, k, force);
    WordRight(d, k, a);
    if a < |d| {
      GapForce(d, k, a, b);
      GapRight(d, a, b);
      CasedFrom(d, b);
      var more := Cased(d[b..], HasStop(d[a..b]));
      RightJoin(d, a, b, |d|, d[a..b], more);
      RightJoin(d, k, a, |d|, CasedWord(d[k..a], force), d[a..b] + more);
    } else {
      assert CasedWord(d[k..a], force) + "" == CasedWord(d[k..a], force);
    }
  }

  lemma RunFrom(d: string, k: nat, word: bool)
    requires k <= |d|
    ensures var n := RunLength(word, d[k..]);
      && (forall j | k <= j < k + n :: IsWordChar(d[j]) == word)
      && (k + n < |d| ==> IsWordChar(d[k + n]) != word)
  {
    var s := d[k..];
    var n := RunLength(word, s);
    forall j | k <= j < k + n ensures IsWordChar(d[j]) == word {
      assert s[j - k] == d[j];
    }
  }

  /** What a gap says about the word after it. */
  lemma GapForce(d: string, k: nat, a: nat, b: nat)
    requires k <= a < b <= |d| && BeginsAt(d, k) && forall j | k <= j < a :: IsWordChar(d[j])
    requires (forall j | a <= j < b :: !IsWordChar(d[j])) && (b < |d| ==> IsWordChar(d[b]))
    ensures BeginsAt(d, b) && (HasStop(d[a..b]) <==> b == 0 || AfterStop(d, b))
  {
    GapStop(d, a, b);
  }

  /** A title in title case is the text without full stops at line ends, with each character what its place
      says: of a word, the first letter is large and the others are small, but for the third after Mc, unless
      it is one of the little words and neither first nor after the end of a sentence; then all are small. */
  lemma TitleLetters(s: string)
    ensures var d, r := StripDots(s), Capitalized(s); |r| == |d| && forall i | 0 <= i < |d| :: r[i] == TitleChar(d, i)
  {
    AllCased(StripDots(s));
  }

  lemma AllCased(d: string)
    ensures var r := Cased(d, true); |r| == |d| && forall i | 0 <= i < |d| :: r[i] == TitleChar(d, i)
  {
    assert d[0..] == d;
    CasedFrom(d, 0);
    forall i | 0 <= i < |d| ensures Cased(d, true)[i] == TitleChar(d, i) {
      assert Cased(d, true)[i - 0] == TitleChar(d, i);
    }
  }

  /** The full stop at i is one of a run that ends a line. */
  predicate EndDot(s: string, i: nat)
    requires i < |s|
  {
    s[i] == '.' && AtLineEnd(s[i..][Dots(s[i..])..])
  }

  /** The characters from i on that are no full stops at a line end. */
  function WithoutEndDots(s: string, i: nat): string
    requires i <= |s|
    decreases |s| - i
  {
    if i == |s| then "" else (if EndDot(s, i) then "" else [s[i]]) + WithoutEndDots(s, i + 1)
  }

  lemma DotRest(s: string, i: nat)
    requires i < |s| && Dots(s[i..]) > 0
    ensures s[i] == '.' && Dots(s[i + 1..]) == Dots(s[i..]) - 1
    ensures s[i + 1..][Dots(s[i + 1..])..] == s[i..][Dots(s[i..])..]
  {
    assert s[i..][0] == s[i] && s[i..][1..] == s[i + 1..];
  }

  lemma {:induction false} RunDropped(s: string, i: nat, n: nat)
    requires i + n <= |s| && n <= Dots(s[i..]) && AtLineEnd(s[i..][Dots(s[i..])..])
    ensures WithoutEndDots(s, i) == WithoutEndDots(s, i + n)
    decreases n
  {
    if n > 0 {
      DotRest(s, i);
      RunDropped(s, i + 1, n - 1);
      assert "" + WithoutEndDots(s, i + 1) == WithoutEndDots(s, i + 1);
    }
  }

  /** Exactly the full stops of runs that end a line are dropped. */
  lemma {:induction false} EndDotsDropped(s: string, i: nat)
    requires i <= |s|
    ensures StripDots(s[i..]) == WithoutEndDots(s, i)
    decreases |s| - i
  {
    if i < |s| {
      var u := s[i..];
      var n := Dots(u);
      assert u[0] == s[i] && u[1..] == s[i + 1..] && u[n..] == s[i + n..];
      if EndDot(s, i) {
        RunDropped(s, i, n);
        EndDotsDropped(s, i + n);
      } else {
        EndDotsDropped(s, i + 1);
      }
    }
  }

  // ---------- What a tilde string can carry ----------

  /** Somewhere a carriage return is followed by nothing but full stops up to a newline. */
  predicate CrDotsLf(s: string) {
    exists i :: 0 <= i < |s| && CrDotsLfAt(s, i)
  }

  predicate CrDotsLfAt(s: string, i: nat)
    requires i < |s|
  {
    var after := s[i + 1..];
    s[i] == '\r' && Dots(after) < |after| && after[Dots(after)] == '\n'
  }

  lemma {:induction false} StripDotsNewline(s: string)
    ensures (StripDots(s) != "" && StripDots(s)[0] == '\n') <==> Dots(s) < |s| && s[Dots(s)] == '\n'
    decreases |s|
  {
    if s != "" && s[0] == '.' {
      StripDotsNewline(s[1..]);
      var n := Dots(s);
      assert s[1..][n - 1..] == s[n..] && Dots(s[1..]) == n - 1;
      if AtLineEnd(s[n..]) {
        StripDotsNewline(s[n..]);
      }
    }
  }

  lemma CrDotsLfShift(s: string, n: nat, i: nat)
    requires n + i < |s|
    ensures CrDotsLfAt(s[n..], i) <==> CrDotsLfAt(s, n + i)
  {
    assert s[n..][i + 1..] == s[n + i + 1..];
  }

  lemma CrDotsLfTail(s: string, n: nat)
    requires n <= |s| && forall i | 0 <= i < n :: s[i] != '\r'
    ensures CrDotsLf(s) <==> CrDotsLf(s[n..])
  {
    if CrDotsLf(s) {
      var i :| 0 <= i < |s| && CrDotsLfAt(s, i);
      CrDotsLfShift(s, n, i - n);
    }
    if CrDotsLf(s[n..]) {
      var i :| 0 <= i < |s[n..]| && CrDotsLfAt(s[n..], i);
      CrDotsLfShift(s, n, i);
    }
  }

  lemma NoCrLfCons(c: char, t: string)
    ensures NoCrLf([c] + t) <==> NoCrLf(t) && !(c == '\r' && t != "" && t[0] == '\n')
  {
    var s := [c] + t;
    assert s[1..] == t;
    if NoCrLf(s) {
      forall i | 0 <= i && i + 1 < |t| ensures !(t[i] == '\r' && t[i + 1] == '\n') {
        assert t[i] == s[i + 1] && t[i + 1] == s[i + 2];
      }
      assert s[0] == c && (t != "" ==> s[1] == t[0]);
    }
    if NoCrLf(t) && !(c == '\r' && t != "" && t[0] == '\n') {
      forall i | 0 <= i && i + 1 < |s| ensures !(s[i] == '\r' && s[i + 1] == '\n') {
        assert s[i + 1] == t[i] && (i > 0 ==> s[i] == t[i - 1]);
      }
    }
  }

  lemma CrFirst(s: string)
    requires s != ""
    ensures CrDotsLf(s) <==> CrDotsLfAt(s, 0) || CrDotsLf(s[1..])
  {
    if CrDotsLf(s) {
      var i :| 0 <= i < |s| && CrDotsLfAt(s, i);
      if i > 0 {
        CrDotsLfShift(s, 1, i - 1);
      }
    }
    if CrDotsLf(s[1..]) {
      var i :| 0 <= i < |s[1..]| && CrDotsLfAt(s[1..], i);
      CrDotsLfShift(s, 1, i);
    }
  }

  /** Dropping full stops brings a carriage return up to a newline exactly where nothing else was between
      them. */
  lemma {:induction false} StripDotsCr(s: string)
    ensures NoCrLf(StripDots(s)) <==> !CrDotsLf(s)
    decreases |s|
  {
    if s != "" {
      var n := Dots(s);
      if s[0] == '.' && AtLineEnd(s[n..]) {
        StripDotsCr(s[n..]);
        CrDotsLfTail(s, n);
      } else {
        StripDotsCr(s[1..]);
        StripDotsNewline(s[1..]);
        NoCrLfCons(s[0], StripDots(s[1..]));
        CrFirst(s);
      }
    }
  }

  lemma ShapeCarried(a: string, b: string)
    requires SameShape(a, b)
    ensures ('~' in a <==> '~' in b) && (NoCrLf(a) <==> NoCrLf(b))
  {
    if '~' in a {
      var i :| 0 <= i < |a| && a[i] == '~';
      assert b[i] == '~';
    }
    if '~' in b {
      var i :| 0 <= i < |b| && b[i] == '~';
      assert a[i] == '~';
    }
  }

  lemma {:induction false} StripDotsTilde(s: string)
    requires '~' !in s
    ensures '~' !in StripDots(s)
    decreases |s|
  {
    if s != "" {
      StripDotsTilde(s[1..]);
      if s[0] == '.' {
        StripDotsTilde(s[Dots(s)..]);
      }
    }
  }

  /** A title case title can be carried by a tilde string exactly when no carriage return has only full
      stops between it and a newline. */
  lemma CapitalizedCarried(s: string)
    requires '~' !in s
    ensures '~' !in Capitalized(s)
    ensures Carried(Capitalized(s)) <==> !CrDotsLf(s)
  {
    StripDotsTilde(s);
    StripDotsCr(s);
    CasedShape(StripDots(s), true);
    ShapeCarried(StripDots(s), Capitalized(s));
  }

  // ---------- The loop over words and gaps ----------

  /** The words and, between them, the gaps; the first word may be empty. */
  function WordsAndGaps(s: string): seq<string>
    decreases |s|
  {
    var n := RunLength(true, s);
    if n == |s| then if s == "" then [] else [s]
    else
      var rest := s[n..];
      var m := RunLength(false, rest);
      [s[..n], rest[..m]] + WordsAndGaps(rest[m..])
  }

  lemma PiecesCased(s: string, force: bool)
    ensures CasedPieces(WordsAndGaps(s), true, force) == Cased(s, force)
    decreases |s|
  {
    var n := RunLength(true, s);
    if n < |s| {
      var rest := s[n..];
      var m := RunLength(false, rest);
      PiecesCased(rest[m..], HasStop(rest[..m]));
      var ps := WordsAndGaps(s);
      assert ps[1..][0] == rest[..m] && ps[1..][1..] == WordsAndGaps(rest[m..]);
      Assoc(CasedWord(s[..n], force), rest[..m], Cased(rest[m..], HasStop(rest[..m])));
    } else if s != "" {
      assert [s][1..] == [];
      assert CasedWord(s, force) + "" == CasedWord(s, force);
    }
  }

  /** What the loop makes of the pieces, a word first or a gap. */
  function CasedPieces(ps: seq<string>, word: bool, force: bool): string {
    if ps == [] then ""
    else if word then CasedWord(ps[0], force) + CasedPieces(ps[1..], false, false)
    else ps[0] + CasedPieces(ps[1..], true, HasStop(ps[0]))
  }

  /** Whether the pieces alternate between words and gaps. */
  predicate Alternate(ps: seq<string>, word: bool) {
    ps != [] ==>
      && (forall i | 0 <= i < |ps[0]| :: IsWordChar(ps[0][i]) == word)
      && (!word ==> ps[0] != "")
      && Alternate(ps[1..], !word)
  }

  lemma {:induction false} PiecesAlternate(s: string)
    ensures Alternate(WordsAndGaps(s), true)
    decreases |s|
  {
    var n := RunLength(true, s);
    if n < |s| {
      var rest := s[n..];
      var m := RunLength(false, rest);
      PiecesAlternate(rest[m..]);
      var ps := WordsAndGaps(s);
      assert ps[1..][0] == rest[..m] && ps[1..][1..] == WordsAndGaps(rest[m..]);
    } else if s != "" {
      assert [s][1..] == [];
    }
  }

  /** The capitals of a gap are itself: it has no letters. */
  lemma GapCapital(gap: string)
    requires forall i | 0 <= i < |gap| :: !IsWordChar(gap[i])
    ensures Capital(gap) == gap && McFixed(gap) == gap
  {
    CapitalAt(gap);
  }

  lemma NoStop(w: string)
    requires AllWordChars(w)
    ensures !HasStop(w)
  {
  }

  lemma RunAll(s: string, word: bool)
    requires forall i | 0 <= i < |s| :: IsWordChar(s[i]) == word
    ensures RunLength(word, s) == |s| && (s != "" ==> RunLength(!word, s) == 0)
  {
    RunLengthIs(word, s, |s|);
  }

  /** One piece, and whether the next one gets a capital in any case. */
  method CasePiece(piece: string, force: bool, ghost word: bool) returns (cased: string, next: bool)
    requires (forall i | 0 <= i < |piece| :: IsWordChar(piece[i]) == word) && (!word ==> piece != "" && !force)
    ensures word ==> cased == CasedWord(piece, force) && !next
    ensures !word ==> cased == piece && next == HasStop(piece)
  {
    RunAll(piece, word);
    if word {
      NoStop(piece);
    } else {
      GapCapital(piece);
    }
    if force {
      cased := Capital(piece);
      next := false;
    } else if RunLength(true, piece) == |piece| && Lower(piece) in NOCAP_WORDS {
      cased := Lower(piece);
      next := false;
    } else {
      next := HasStop(piece);
      cased := Capital(piece);
    }
    cased := McFixed(cased);
  }

  lemma CasedStep(ps: seq<string>, i: nat, word: bool, force: bool)
    requires i < |ps| && Alternate(ps[i..], word)
    ensures Alternate(ps[i + 1..], !word) && (forall k | 0 <= k < |ps[i]| :: IsWordChar(ps[i][k]) == word)
    ensures !word ==> ps[i] != ""
    ensures CasedPieces(ps[i..], word, force) ==
      if word then CasedWord(ps[i], force) + CasedPieces(ps[i + 1..], false, false)
      else ps[i] + CasedPieces(ps[i + 1..], true, HasStop(ps[i]))
  {
    assert ps[i..][0] == ps[i] && ps[i..][1..] == ps[i + 1..];
  }

  method Capitalize(original: string) returns (result: string)
    ensures result == Capitalized(original)
  {
    var str := StripDots(original);
    var pieces := WordsAndGaps(str);
    PiecesCased(str, true);
    PiecesAlternate(str);
    result := "";
    var capNext := true;
    ghost var word := true;
    assert pieces[0..] == pieces && "" + Cased(str, true) == Cased(str, true);
    for i := 0 to |pieces|
      invariant Alternate(pieces[i..], word) && (capNext ==> word)
      invariant result + CasedPieces(pieces[i..], word, capNext) == Cased(str, true)
    {
      CasedStep(pieces, i, word, capNext);
      var piece;
      piece, capNext := CasePiece(pieces[i], capNext, word);
      Assoc(result, piece, CasedPieces(pieces[i + 1..], !word, capNext));
      result := result + piece;
      word := !word;
    }
    assert pieces[|pieces|..] == [] && result + "" == result;
  }
}
