/** What a printed object reads back as, although its end is only found by reading into the next. */
module ItemRoundTrip {
  import opened Text
  import opened Pieces
  import opened Extradescs
  import opened Weights
  import opened Items

  // ---------- From text to pieces ----------

  /** The machine after one printed piece, if it accepts it and goes on. */
  function TakePiece(m: Machine, p: Piece): Option<Machine> {
    match p
    case Line(s) =>
      if ReadsLine(m.state) && '\n' !in s && !EndsInCr(s) && AfterLine(m, s).Go? then Some(AfterLine(m, s).m) else None
    case TildeStr(t) =>
      if !ReadsLine(m.state) && '~' !in t then Some(AfterTilde(m, t)) else None
  }

  function TakePieces(m: Machine, ps: seq<Piece>): Option<Machine> {
    Chain(TakePiece, m, ps)
  }

  /** A printed text is taken with its line ends normalised. */
  lemma PieceRun(m: Machine, p: Piece, rest: string)
    requires TakePiece(m, UnixPiece(p)).Some?
    ensures Run(m, PieceText(p) + rest) == Run(TakePiece(m, UnixPiece(p)).value, rest)
  {
    match p
    case Line(s) =>
      GetPrintedLine(s, rest);
      assert PieceText(p) + rest == s + "\n" + rest;
    case TildeStr(t) =>
      assert PieceText(p) + rest == t + "~\n" + rest;
      NoTildeInUnix(t);
      ReadPrintedTilde(t, rest);
  }

  lemma {:induction false} PiecesRun(m: Machine, ps: seq<Piece>, rest: string)
    requires TakePieces(m, UnixPieces(ps)).Some?
    ensures Run(m, Render(ps) + rest) == Run(TakePieces(m, UnixPieces(ps)).value, rest)
    decreases |ps|
  {
    if ps == [] {
      assert Render(ps) + rest == rest;
    } else {
      var us := UnixPieces(ps);
      assert us[0] == UnixPiece(ps[0]) && us[1..] == UnixPieces(ps[1..]);
      PieceRun(m, ps[0], Render(ps[1..]) + rest);
      Assoc(PieceText(ps[0]), Render(ps[1..]), rest);
      PiecesRun(TakePiece(m, us[0]).value, ps[1..], rest);
    }
  }

  // ---------- The objects that the format can represent ----------

  predicate WordOk(w: string) {
    w != "" && Word.All(w)
  }

  predicate TextsOk(strict: bool, i: Item) {
    && TextOk(strict, i.aliases) && TextOk(strict, i.name) && TextOk(strict, i.lineDesc)
    && TextOk(strict, i.actionDesc) && TextOk(strict, i.specialParam)
  }

  predicate NumbersOk(i: Item) {
    && i.kind >= 0 && WordOk(i.extra) && WordOk(i.extra2) && WordOk(i.worn)
    && (i.extra3.Some? ==> WordOk(i.extra3.value))
    && i.value3 >= 0 && i.material >= 0
    && Numeral(i.weight)
  }

  predicate ListsOk(strict: bool, i: Item) {
    && (forall k | 0 <= k < |i.extradescs| :: ExtradescOk(strict, i.extradescs[k]))
    && (forall k | 0 <= k < |i.applies| :: i.applies[k].key >= 0)
    && (i.owner.Some? ==> i.owner.value >= 0)
  }

  predicate BitsOk(bits: seq<Option<string>>) {
    forall k | 0 <= k < |bits| && bits[k].Some? :: WordOk(bits[k].value)
  }

  predicate ItemOk(strict: bool, i: Item) {
    TextsOk(strict, i) && NumbersOk(i) && ListsOk(strict, i) && BitsOk(i.bitvector)
  }

  /** The printer writes bitvectors under the numbers 0 to 2 and the reader takes them as 1 to 3, so
      an object that has any is out. So is one with a weight that is printed with an exponent. */
  predicate Representable(i: Item) {
    ItemOk(true, i) && Moderate(i.weight) && i.bitvector == []
  }

  // ---------- Lines of numbers ----------

  lemma TildeRead(m: Machine, t: string)
    requires !ReadsLine(m.state) && '~' !in t
    ensures TakePiece(m, TildeStr(t)) == Some(AfterTilde(m, t))
  {
  }

  /** The state that a section letter opens. */
  function Opened(letter: string): Option<State> {
    if letter == "E" then Some(ExKeywords) else if letter == "A" then Some(ApplyLine)
    else if letter == "V" then Some(Bitvector) else if letter == "P" then Some(SpecialParam) else None
  }

  /** A line that the machine goes on from is taken as a piece. */
  lemma LineTaken(m: Machine, line: string, m': Machine)
    requires ReadsLine(m.state) && '\n' !in line && !EndsInCr(line) && AfterLine(m, line) == Go(m')
    ensures TakePiece(m, Line(line)) == Some(m')
  {
  }

  lemma OpenRead(m: Machine, letter: string)
    requires m.state == Optional && Opened(letter).Some?
    ensures TakePiece(m, Line(letter)) == Some(m.(state := Opened(letter).value))
  {
  }

  /** A printed line of fields and one more after a space. */
  lemma TailMatch(classes: seq<CharClass>, values: seq<string>, cls: CharClass, last: Option<string>)
    requires classes != [] && AllInClass(classes, values)
    requires forall i | 0 <= i < |classes| :: FieldClass(classes[i])
    requires FieldClass(cls) && (last.Some? ==> last.value != "" && cls.All(last.value))
    ensures var text := " " + OptionText(last);
      && MatchFields(classes, false, Joined(values) + text) == Some(Fields(values, text))
      && Trailing(cls, text) == last
      && '\n' !in Joined(values) + text && !EndsInCr(Joined(values) + text)
  {
    var text := " " + OptionText(last);
    assert FieldClass(classes[|classes| - 1]) && !classes[|classes| - 1].Has(' ');
    MatchJoined(classes, false, values, text);
    JoinedPlain(classes, values);
    TrailingRead(cls, last);
    assert last == None ==> text == " " && text[1..] == "";
  }

  lemma FlagsMatch(i: Item)
    requires NumbersOk(i)
    ensures var values := [Int(i.kind), i.extra, i.extra2, i.worn];
      var text := " " + OptionText(i.extra3);
      && FlagsLine(i).text == Joined(values) + text
      && MatchFields([Digit, Word, Word, Word], false, FlagsLine(i).text) == Some(Fields(values, text))
      && Trailing(Word, text) == i.extra3 && IntOf(Int(i.kind)) == i.kind
      && '\n' !in FlagsLine(i).text && !EndsInCr(FlagsLine(i).text)
  {
    IntField(i.kind);
    TailMatch([Digit, Word, Word, Word], [Int(i.kind), i.extra, i.extra2, i.worn], Word, i.extra3);
  }

  lemma FlagsRead(m: Machine, i: Item)
    requires m.state == Numbers1 && NumbersOk(i)
    ensures TakePiece(m, FlagsLine(i))
         == Some(m.(state := Values, item := m.item.(kind := i.kind, extra := i.extra, extra2 := i.extra2,
                                                     worn := i.worn, extra3 := i.extra3)))
  {
    FlagsMatch(i);
  }

  lemma ValuesMatch(i: Item)
    requires i.value3 >= 0
    ensures var values := [Int(i.value0), Int(i.value1), Int(i.value2)];
      var text := " " + Int(i.value3);
      && MatchFields([Signed, Signed, Signed], false, ValuesLine(i).text) == Some(Fields(values, text))
      && Trailing(Digit, text) == Some(Int(i.value3)) && IntOf(Int(i.value3)) == i.value3
      && '\n' !in ValuesLine(i).text && !EndsInCr(ValuesLine(i).text)
  {
    IntField(i.value0);
    IntField(i.value1);
    IntField(i.value2);
    IntField(i.value3);
    TailMatch([Signed, Signed, Signed], [Int(i.value0), Int(i.value1), Int(i.value2)], Digit, Some(Int(i.value3)));
  }

  lemma ValuesRead(m: Machine, i: Item)
    requires m.state == Values && i.value3 >= 0
    ensures TakePiece(m, ValuesLine(i))
         == Some(m.(state := Numbers2, item := m.item.(value0 := i.value0, value1 := i.value1, value2 := i.value2,
                                                       value3 := i.value3)))
  {
    ValuesMatch(i);
    IntField(i.value0);
    IntField(i.value1);
    IntField(i.value2);
  }

  /** The three values and what is behind them on the line. */
  lemma ThreeValues(a: int, b: int, c: int, text: string)
    requires text == "" || text[0] == ' '
    ensures MatchFields([Signed, Signed, Signed], false, Joined([Int(a), Int(b), Int(c)]) + text)
         == Some(Fields([Int(a), Int(b), Int(c)], text))
  {
    IntField(a);
    IntField(b);
    IntField(c);
    MatchJoined([Signed, Signed, Signed], false, [Int(a), Int(b), Int(c)], text);
  }

  lemma FourthText(d: int)
    ensures Trailing(Digit, " " + Int(d)) == if d >= 0 then Some(Int(d)) else None
  {
    IntField(d);
    if d >= 0 {
      TrailingRead(Digit, Some(Int(d)));
    } else {
      assert Int(d)[0] == '-' && (" " + Int(d))[1..] == Int(d);
    }
  }

  /** A fourth value is read if it is not negative; one that is missing or negative is taken to be 0. */
  lemma FourthValue(m: Machine, a: int, b: int, c: int, d: int)
    requires m.state == Values
    ensures var three := Joined([Int(a), Int(b), Int(c)]);
      var read := m.(state := Numbers2, item := m.item.(value0 := a, value1 := b, value2 := c, value3 := 0));
      && AfterLine(m, three + "") == Go(read)
      && AfterLine(m, three + (" " + Int(d))) == Go(read.(item := read.item.(value3 := if d >= 0 then d else 0)))
  {
    ThreeValues(a, b, c, "");
    ThreeValues(a, b, c, " " + Int(d));
    FourthText(d);
    IntField(a);
    IntField(b);
    IntField(c);
    IntField(d);
  }

  lemma DamageMatch(i: Item)
    requires NumbersOk(i)
    ensures var values := [Int(i.material), Int(i.maxDam), Int(i.damage)];
      && MatchFields([Digit, Signed, Signed], false, DamageLine(i).text) ==
          Some(Fields(values, " " + WeightText(i.weight)))
      && '\n' !in DamageLine(i).text && !EndsInCr(DamageLine(i).text)
  {
    IntField(i.material);
    IntField(i.maxDam);
    IntField(i.damage);
    WeightWord(i.weight);
    TailMatch([Digit, Signed, Signed], [Int(i.material), Int(i.maxDam), Int(i.damage)], Word,
        Some(WeightText(i.weight)));
  }

  lemma DamageRead(m: Machine, i: Item)
    requires m.state == Numbers2 && NumbersOk(i)
    ensures TakePiece(m, DamageLine(i))
         == Some(m.(state := Numbers3, item := m.item.(material := i.material, maxDam := i.maxDam, damage := i.damage)))
  {
    DamageMatch(i);
    IntField(i.material);
    IntField(i.maxDam);
    IntField(i.damage);
  }

  lemma CostMatch(i: Item)
    requires NumbersOk(i) && Moderate(i.weight)
    ensures var values := [WeightText(i.weight), Int(i.cost), Int(i.rent)];
      var last := TimerText(i.timer);
      && MatchFields([Decimal, Signed, Signed], false, CostLine(i).text) == Some(Fields(values, " " + OptionText(last)))
      && Trailing(Signed, " " + OptionText(last)) == last
      && '\n' !in CostLine(i).text && !EndsInCr(CostLine(i).text)
  {
    IntField(i.cost);
    IntField(i.rent);
    if i.timer.Some? {
      IntField(i.timer.value);
    }
    WeightWord(i.weight);
    WeightRead(i.weight);
    var last := TimerText(i.timer);
    TailMatch([Decimal, Signed, Signed], [WeightText(i.weight), Int(i.cost), Int(i.rent)], Signed, last);
  }

  lemma CostRead(m: Machine, i: Item)
    requires m.state == Numbers3 && NumbersOk(i) && Moderate(i.weight) && m.item.timer == None
    ensures TakePiece(m, CostLine(i))
         == Some(m.(state := Optional,
                    item := m.item.(weight := i.weight, cost := i.cost, rent := i.rent, timer := i.timer)))
  {
    CostMatch(i);
    CostStored(m, i);
    LineTaken(m, CostLine(i).text, WithNumbers3(m, CostFields(i)));
  }

  function CostFields(i: Item): Fields {
    Fields([WeightText(i.weight), Int(i.cost), Int(i.rent)], " " + OptionText(TimerText(i.timer)))
  }

  lemma CostStored(m: Machine, i: Item)
    requires NumbersOk(i) && Moderate(i.weight) && m.item.timer == None
    requires Trailing(Signed, CostFields(i).rest) == TimerText(i.timer)
    ensures WithNumbers3(m, CostFields(i)) == m.(state := Optional,
              item := m.item.(weight := i.weight, cost := i.cost, rent := i.rent, timer := i.timer))
  {
    WeightRead(i.weight);
    IntField(i.cost);
    IntField(i.rent);
    if i.timer.Some? {
      IntField(i.timer.value);
    }
  }

  // ---------- Sections ----------

  predicate Between(m: Machine, i: Item) {
    m.state == Optional && m.item == i
  }

  lemma TextsRead(m: Machine, i: Item)
    requires m.state == Aliases && TextsOk(false, i)
    ensures TakePieces(m, ItemTexts(i))
         == Some(m.(state := Numbers1, item := m.item.(aliases := i.aliases, name := i.name, lineDesc := i.lineDesc,
                                                       actionDesc := i.actionDesc)))
  {
    TildeRead(m, i.aliases);
    var m1 := AfterTilde(m, i.aliases);
    TildeRead(m1, i.name);
    var m2 := AfterTilde(m1, i.name);
    TildeRead(m2, i.lineDesc);
    var m3 := AfterTilde(m2, i.lineDesc);
    TildeRead(m3, i.actionDesc);
    Chain4(TakePiece, m, TildeStr(i.aliases), m1, TildeStr(i.name), m2, TildeStr(i.lineDesc),
           m3, TildeStr(i.actionDesc));
  }

  /** i with everything before the optional sections, and nothing else. */
  function Fixed(i: Item): Item {
    i.(extradescs := [], applies := [], bitvector := [], owner := None, specialParam := "")
  }

  /** The machine after the lines before the last number line. */
  lemma ThreeLinesRead(m: Machine, i: Item) returns (m': Machine)
    requires m.state == Numbers1 && NumbersOk(i)
    requires m.item == NEW_ITEM.(vnum := i.vnum, aliases := i.aliases, name := i.name, lineDesc := i.lineDesc,
                                actionDesc := i.actionDesc)
    ensures TakePieces(m, [FlagsLine(i), ValuesLine(i), DamageLine(i)]) == Some(m')
    ensures m' == m.(state := Numbers3, item := Fixed(i).(weight := m.item.weight, cost := m.item.cost,
                                                          rent := m.item.rent, timer := m.item.timer))
  {
    FlagsRead(m, i);
    var m1 := m.(state := Values, item := m.item.(kind := i.kind, extra := i.extra, extra2 := i.extra2,
                                                  worn := i.worn, extra3 := i.extra3));
    ValuesRead(m1, i);
    var m2 := m1.(state := Numbers2, item := m1.item.(value0 := i.value0, value1 := i.value1, value2 := i.value2,
                                                      value3 := i.value3));
    DamageRead(m2, i);
    m' := m2.(state := Numbers3, item := m2.item.(material := i.material, maxDam := i.maxDam, damage := i.damage));
    Chain3(TakePiece, m, FlagsLine(i), m1, ValuesLine(i), m2, DamageLine(i));
  }

  lemma NumbersRead(m: Machine, i: Item)
    requires m.state == Numbers1 && NumbersOk(i) && Moderate(i.weight)
    requires m.item == NEW_ITEM.(vnum := i.vnum, aliases := i.aliases, name := i.name, lineDesc := i.lineDesc,
                                actionDesc := i.actionDesc)
    ensures TakePieces(m, ItemNumbers(i)) == Some(m.(state := Optional, item := Fixed(i)))
  {
    var m3 := ThreeLinesRead(m, i);
    CostRead(m3, i);
    Chain1(TakePiece, m3, CostLine(i));
    Extend(TakePiece, m, [FlagsLine(i), ValuesLine(i), DamageLine(i)], m3, [CostLine(i)]);
    assert [FlagsLine(i), ValuesLine(i), DamageLine(i)] + [CostLine(i)] == ItemNumbers(i);
  }

  lemma ExtradescRead(m: Machine, x: Extradesc)
    requires m.state == Optional && ExtradescOk(false, x)
    ensures var m' := TakePieces(m, ExtradescPieces(x));
      m'.Some? && Between(m'.value, m.item.(extradescs := m.item.extradescs + [x]))
  {
    OpenRead(m, "E");
    Chain1(TakePiece, m, Line("E"));
    var m1 := m.(state := ExKeywords);
    TildeRead(m1, x.keywords);
    var m2 := AfterTilde(m1, x.keywords);
    TildeRead(m2, x.description);
    var texts := [TildeStr(x.keywords), TildeStr(x.description)];
    Chain2(TakePiece, m1, texts[0], m2, texts[1]);
    Extend(TakePiece, m, [Line("E")], m1, texts);
  }

  lemma ApplyMatch(a: Apply)
    requires a.key >= 0
    ensures var values := [Int(a.key), Int(a.value)];
      && MatchFields([Digit, Signed], false, Joined(values)) == Some(Fields(values, ""))
      && '\n' !in Joined(values) && '\r' !in Joined(values)
  {
    var values := [Int(a.key), Int(a.value)];
    IntField(a.key);
    IntField(a.value);
    MatchJoined([Digit, Signed], false, values, "");
    JoinedPlain([Digit, Signed], values);
    assert Joined(values) + "" == Joined(values);
  }

  lemma ApplyLineRead(m: Machine, a: Apply)
    requires m.state == ApplyLine && a.key >= 0
    ensures TakePiece(m, Line(Joined([Int(a.key), Int(a.value)])))
         == Some(m.(state := Optional, item := m.item.(applies := m.item.applies + [a])))
  {
    ApplyMatch(a);
    IntField(a.key);
    IntField(a.value);
  }

  lemma ApplyRead(m: Machine, a: Apply)
    requires m.state == Optional && a.key >= 0
    ensures var m' := TakePieces(m, ApplyPieces(a));
      m'.Some? && Between(m'.value, m.item.(applies := m.item.applies + [a]))
  {
    OpenRead(m, "A");
    var m1 := m.(state := ApplyLine);
    ApplyLineRead(m1, a);
    Chain2(TakePiece, m, Line("A"), m1, Line(Joined([Int(a.key), Int(a.value)])));
  }

  lemma {:induction false} ExtradescsRead(m: Machine, xs: seq<Extradesc>)
    requires m.state == Optional && forall k | 0 <= k < |xs| :: ExtradescOk(false, xs[k])
    ensures var m' := TakePieces(m, AllPieces(xs, ExtradescPieces));
      m'.Some? && Between(m'.value, m.item.(extradescs := m.item.extradescs + xs))
    decreases |xs|
  {
    if xs == [] {
      assert m.item.extradescs + xs == m.item.extradescs;
    } else {
      ExtradescRead(m, xs[0]);
      var m1 := TakePieces(m, ExtradescPieces(xs[0])).value;
      ExtradescsRead(m1, xs[1..]);
      Extend(TakePiece, m, ExtradescPieces(xs[0]), m1, AllPieces(xs[1..], ExtradescPieces));
      Shift(m.item.extradescs, xs);
    }
  }

  lemma {:induction false} AppliesRead(m: Machine, xs: seq<Apply>)
    requires m.state == Optional && forall k | 0 <= k < |xs| :: xs[k].key >= 0
    ensures var m' := TakePieces(m, AllPieces(xs, ApplyPieces));
      m'.Some? && Between(m'.value, m.item.(applies := m.item.applies + xs))
    decreases |xs|
  {
    if xs == [] {
      assert m.item.applies + xs == m.item.applies;
    } else {
      ApplyRead(m, xs[0]);
      var m1 := TakePieces(m, ApplyPieces(xs[0])).value;
      AppliesRead(m1, xs[1..]);
      Extend(TakePiece, m, ApplyPieces(xs[0]), m1, AllPieces(xs[1..], ApplyPieces));
      Shift(m.item.applies, xs);
    }
  }

  function FirstPieces(i: Item): seq<Piece> {
    ItemTexts(i) + ItemNumbers(i) + AllPieces(i.extradescs, ExtradescPieces) + AllPieces(i.applies, ApplyPieces)
  }

  lemma FixedRead(i: Item)
    requires TextsOk(false, i) && NumbersOk(i) && Moderate(i.weight)
    ensures TakePieces(Begin(Some(i.vnum)), ItemTexts(i) + ItemNumbers(i))
         == Some(Begin(Some(i.vnum)).(state := Optional, item := Fixed(i)))
  {
    var m := Begin(Some(i.vnum));
    TextsRead(m, i);
    var m1 := m.(state := Numbers1, item := m.item.(aliases := i.aliases, name := i.name, lineDesc := i.lineDesc,
                                                    actionDesc := i.actionDesc));
    NumbersRead(m1, i);
    Extend(TakePiece, m, ItemTexts(i), m1, ItemNumbers(i));
  }

  lemma FirstRead(i: Item)
    requires TextsOk(false, i) && NumbersOk(i) && Moderate(i.weight) && ListsOk(false, i)
    ensures var m := TakePieces(Begin(Some(i.vnum)), FirstPieces(i));
      m.Some? && Between(m.value, i.(bitvector := [], owner := None, specialParam := ""))
  {
    var m := Begin(Some(i.vnum));
    FixedRead(i);
    var m2 := m.(state := Optional, item := Fixed(i));
    ExtradescsRead(m2, i.extradescs);
    var m3 := TakePieces(m2, AllPieces(i.extradescs, ExtradescPieces)).value;
    AppliesRead(m3, i.applies);
    Extend3(TakePiece, m, ItemTexts(i) + ItemNumbers(i), m2, AllPieces(i.extradescs, ExtradescPieces), m3,
            AllPieces(i.applies, ApplyPieces));
  }

  lemma OwnerRead(m: Machine, owner: Option<int>)
    requires m.state == Optional && m.item.owner == None && (owner.Some? ==> owner.value >= 0)
    ensures TakePieces(m, OwnerPieces(owner)) == Some(m.(item := m.item.(owner := owner)))
  {
    if owner.Some? {
      OwnerLineRead(m, owner.value);
      Chain1(TakePiece, m, Line("O " + Int(owner.value)));
    }
  }

  lemma OwnerLineRead(m: Machine, n: int)
    requires m.state == Optional && n >= 0
    ensures TakePiece(m, Line("O " + Int(n))) == Some(m.(item := m.item.(owner := Some(n))))
  {
    var line := "O " + Int(n);
    OneNumber(n);
    IntField(n);
    assert line[2..] == Int(n);
    assert Int(n)[|Int(n)| - 1] in Int(n);
    LineTaken(m, line, m.(item := m.item.(owner := Some(n))));
  }

  lemma ParamRead(m: Machine, t: string)
    requires m.state == Optional && m.item.specialParam == "" && '~' !in t
    ensures var m' := TakePieces(m, Section("P", t));
      m'.Some? && Between(m'.value, m.item.(specialParam := t))
  {
    if t != "" {
      OpenRead(m, "P");
      var m1 := m.(state := SpecialParam);
      TildeRead(m1, t);
      Chain2(TakePiece, m, Line("P"), m1, TildeStr(t));
    }
  }

  // ---------- Bitvectors ----------

  /** The bitvectors that printed ones read back as; none if the reader refuses them. */
  function ReadBits(bits: seq<Option<string>>): Option<seq<Option<string>>> {
    var one := if 1 < |bits| then bits[1] else None;
    var two := if 2 < |bits| then bits[2] else None;
    if 0 < |bits| && bits[0].Some? then None
    else if two.Some? then Some([one, two])
    else if one.Some? then Some([one])
    else Some([])
  }

  lemma ReadBitsSame(bits: seq<Option<string>>)
    ensures ReadBits(bits) == Some(bits) <==> bits == []
  {
  }

  lemma BitvectorLine(index: nat, word: string)
    requires WordOk(word)
    ensures var line := Joined([Int(index), word]);
      && FindFields([Digit, Word], line) == Some(Fields([Int(index), word], ""))
      && NatOf(Int(index)) == index && '\n' !in line && !EndsInCr(line)
  {
    var values := [Int(index), word];
    IntField(index);
    MatchJoined([Digit, Word], false, values, "");
    JoinedPlain([Digit, Word], values);
    assert Joined(values) + "" == Joined(values);
  }

  lemma BitvectorLineRead(m: Machine, index: nat, word: string)
    requires m.state == Bitvector && WordOk(word) && index > 0
    ensures TakePiece(m, Line(Joined([Int(index), word])))
         == Some(m.(state := Optional,
             item := m.item.(bitvector := StoreBits(m.item.bitvector, index - 1, word).value)))
  {
    BitvectorLine(index, word);
    LineTaken(m, Joined([Int(index), word]),
              m.(state := Optional, item := m.item.(bitvector := StoreBits(m.item.bitvector, index - 1, word).value)));
  }

  lemma BitvectorRead(m: Machine, bits: seq<Option<string>>, index: nat)
    requires m.state == Optional && BitsOk(bits) && index < |bits| && bits[index].Some? && index > 0
    ensures TakePieces(m, BitvectorPieces(bits, index))
         == Some(m.(item := m.item.(bitvector := StoreBits(m.item.bitvector, index - 1, bits[index].value).value)))
  {
    OpenRead(m, "V");
    var m1 := m.(state := Bitvector);
    BitvectorLineRead(m1, index, bits[index].value);
    Chain2(TakePiece, m, Line("V"), m1, Line(Joined([Int(index), bits[index].value])));
  }

  lemma StoredBits(word: string, first: Option<string>)
    ensures StoreBits([], 0, word) == Some([Some(word)])
    ensures StoreBits([], 1, word) == Some([None, Some(word)])
    ensures StoreBits([first], 1, word) == Some([first, Some(word)])
  {
    var none: seq<Option<string>> := [];
    assert none + Gap(0) + [Some(word)] == [Some(word)];
    assert Gap(1) == [None];
    assert none + Gap(1) + [Some(word)] == [None, Some(word)];
    assert [first] + Gap(0) + [Some(word)] == [first, Some(word)];
  }

  function WithBits(m: Machine, bits: seq<Option<string>>): Machine {
    m.(item := m.item.(bitvector := bits))
  }

  lemma FirstBitsRead(m: Machine, bits: seq<Option<string>>)
    requires m.state == Optional && m.item.bitvector == [] && BitsOk(bits)
    ensures TakePieces(m, BitvectorPieces(bits, 1)) ==
      Some(WithBits(m, if 1 < |bits| && bits[1].Some? then [bits[1]] else []))
  {
    if 1 < |bits| && bits[1].Some? {
      StoredBits(bits[1].value, None);
      BitvectorRead(m, bits, 1);
    }
  }

  lemma SecondBitsRead(m: Machine, bits: seq<Option<string>>, one: Option<string>)
    requires m.state == Optional && m.item.bitvector == (if one.Some? then [one] else []) && BitsOk(bits)
    ensures TakePieces(m, BitvectorPieces(bits, 2))
         == Some(if 2 < |bits| && bits[2].Some? then WithBits(m, [one, bits[2]]) else m)
  {
    if 2 < |bits| && bits[2].Some? {
      StoredBits(bits[2].value, one);
      BitvectorRead(m, bits, 2);
    }
  }

  lemma BitvectorsRead(m: Machine, bits: seq<Option<string>>)
    requires m.state == Optional && m.item.bitvector == [] && BitsOk(bits) && ReadBits(bits).Some?
    ensures TakePieces(m, BitvectorsPieces(bits)) == Some(WithBits(m, ReadBits(bits).value))
  {
    var one := if 1 < |bits| then bits[1] else None;
    var m1 := WithBits(m, if one.Some? then [one] else []);
    FirstBitsRead(m, bits);
    SecondBitsRead(m1, bits, one);
    assert BitvectorsPieces(bits) == BitvectorPieces(bits, 1) + BitvectorPieces(bits, 2);
    Extend(TakePiece, m, BitvectorPieces(bits, 1), m1, BitvectorPieces(bits, 2));
  }

  lemma ZeroLineRefused(m: Machine, word: string)
    requires m.state == Bitvector && m.item.bitvector == [] && WordOk(word)
    ensures AfterLine(m, Joined([Int(0), word])) == Fail
  {
    BitvectorLine(0, word);
  }

  lemma LineStops(m: Machine, line: string, rest: string)
    requires ReadsLine(m.state) && '\n' !in line && !EndsInCr(line) && AfterLine(m, line) == Fail
    ensures Run(m, line + "\n" + rest) == Malformed
  {
    GetPrintedLine(line, rest);
  }

  /** A line that the machine fails on, with whatever behind it. */
  lemma LineRefused(m: Machine, line: string, more: seq<Piece>, rest: string)
    requires ReadsLine(m.state) && '\n' !in line && !EndsInCr(line) && AfterLine(m, line) == Fail
    ensures Run(m, Render([Line(line)] + more) + rest) == Malformed
  {
    RenderConcat([Line(line)], more);
    Render1(Line(line));
    Assoc(line + "\n", Render(more), rest);
    LineStops(m, line, Render(more) + rest);
  }

  lemma OpenRun(m: Machine, letter: string, more: seq<Piece>, rest: string)
    requires m.state == Optional && Opened(letter).Some?
    ensures Run(m, Render([Line(letter)] + more) + rest) == Run(m.(state := Opened(letter).value), Render(more) + rest)
  {
    OpenRead(m, letter);
    RenderConcat([Line(letter)], more);
    Render1(Line(letter));
    Assoc(PieceText(Line(letter)), Render(more), rest);
    PieceRun(m, Line(letter), Render(more) + rest);
  }

  /** The first bitvector is printed under number 0, which stands for the last element of an array
      that is still empty. */
  lemma ZeroRefused(m: Machine, bits: seq<Option<string>>, more: seq<Piece>, rest: string)
    requires m.state == Optional && m.item.bitvector == [] && BitsOk(bits) && ReadBits(bits) == None
    ensures Run(m, Render(BitvectorPieces(bits, 0) + more) + rest) == Malformed
  {
    var line := Joined([Int(0), bits[0].value]);
    BitvectorLine(0, bits[0].value);
    assert BitvectorPieces(bits, 0) + more == [Line("V")] + ([Line(line)] + more);
    OpenRun(m, "V", [Line(line)] + more, rest);
    ZeroLineRefused(m.(state := Bitvector), bits[0].value);
    LineRefused(m.(state := Bitvector), line, more, rest);
  }

  // ---------- What a printed object reads back as ----------

  /** i with the line ends of its texts normalised. */
  function UnixItem(i: Item): Item {
    i.(aliases := Unix(i.aliases), name := Unix(i.name), lineDesc := Unix(i.lineDesc), actionDesc := Unix(i.actionDesc),
       extradescs := Mapped(i.extradescs, UnixExtradesc), specialParam := Unix(i.specialParam))
  }

  lemma UnixFirst(i: Item)
    ensures UnixPieces(FirstPieces(i)) == FirstPieces(UnixItem(i))
  {
    UnixPieces4(TildeStr(i.aliases), TildeStr(i.name), TildeStr(i.lineDesc), TildeStr(i.actionDesc));
    UnixPieces4(FlagsLine(i), ValuesLine(i), DamageLine(i), CostLine(i));
    forall x: Extradesc ensures UnixPieces(ExtradescPieces(x)) == ExtradescPieces(UnixExtradesc(x)) {
      UnixExtradescPieces(x);
    }
    UnixAllPieces(i.extradescs, ExtradescPieces, UnixExtradesc);
    UnixApplies(i.applies);
    UnixPiecesConcat(ItemTexts(i), ItemNumbers(i));
    UnixPiecesConcat(ItemTexts(i) + ItemNumbers(i), AllPieces(i.extradescs, ExtradescPieces));
    UnixPiecesConcat(ItemTexts(i) + ItemNumbers(i) + AllPieces(i.extradescs, ExtradescPieces),
                     AllPieces(i.applies, ApplyPieces));
  }

  lemma UnixApplies(xs: seq<Apply>)
    ensures UnixPieces(AllPieces(xs, ApplyPieces)) == AllPieces(xs, ApplyPieces)
  {
    if xs != [] {
      UnixApplies(xs[1..]);
      UnixPieces2(ApplyPieces(xs[0])[0], ApplyPieces(xs[0])[1]);
      UnixPiecesConcat(ApplyPieces(xs[0]), AllPieces(xs[1..], ApplyPieces));
    }
  }

  lemma UnixBits(bits: seq<Option<string>>, index: nat)
    ensures UnixPieces(BitvectorPieces(bits, index)) == BitvectorPieces(bits, index)
  {
    if index < |bits| && bits[index].Some? {
      UnixPieces2(Line("V"), Line(Joined([Int(index), bits[index].value])));
    }
  }

  function LastPieces(i: Item): seq<Piece> {
    BitvectorsPieces(i.bitvector) + OwnerPieces(i.owner) + Section("P", i.specialParam)
  }

  lemma UnixLast(i: Item)
    ensures UnixPieces(LastPieces(i)) == LastPieces(UnixItem(i))
  {
    var b := i.bitvector;
    UnixBits(b, 0);
    UnixBits(b, 1);
    UnixBits(b, 2);
    UnixPiecesConcat(BitvectorPieces(b, 0), BitvectorPieces(b, 1));
    UnixPiecesConcat(BitvectorPieces(b, 0) + BitvectorPieces(b, 1), BitvectorPieces(b, 2));
    if i.owner.Some? {
      UnixPieces2(Line("O " + Int(i.owner.value)), Line(""));
    }
    UnixSection("P", i.specialParam);
    UnixPiecesConcat(BitvectorsPieces(b), OwnerPieces(i.owner));
    UnixPiecesConcat(BitvectorsPieces(b) + OwnerPieces(i.owner), Section("P", i.specialParam));
  }

  lemma BodyParts(i: Item)
    ensures BodyPieces(i) == FirstPieces(i) + LastPieces(i)
  {
  }

  lemma LastRead(m: Machine, i: Item)
    requires Between(m, i.(bitvector := [], owner := None, specialParam := ""))
    requires BitsOk(i.bitvector) && ReadBits(i.bitvector).Some? && ListsOk(false, i) && '~' !in i.specialParam
    ensures var m' := TakePieces(m, LastPieces(i));
      m'.Some? && Between(m'.value, i.(bitvector := ReadBits(i.bitvector).value))
  {
    BitvectorsRead(m, i.bitvector);
    var m1 := WithBits(m, ReadBits(i.bitvector).value);
    OwnerRead(m1, i.owner);
    var m2 := m1.(item := m1.item.(owner := i.owner));
    ParamRead(m2, i.specialParam);
    Extend3(TakePiece, m, BitvectorsPieces(i.bitvector), m1, OwnerPieces(i.owner), m2, Section("P", i.specialParam));
  }

  lemma UnixItemOk(i: Item)
    requires TextsOk(false, i) && ListsOk(false, i)
    ensures TextsOk(false, UnixItem(i)) && ListsOk(false, UnixItem(i))
    ensures UnixItem(i) == i <==> TextsOk(true, i) && ListsOk(true, i)
  {
    NoTildeInUnix(i.aliases);
    NoTildeInUnix(i.name);
    NoTildeInUnix(i.lineDesc);
    NoTildeInUnix(i.actionDesc);
    NoTildeInUnix(i.specialParam);
    UnixExtradescsOk(i.extradescs);
  }

  /** The machine after the parts that come before the bitvectors. */
  lemma FirstRun(i: Item, rest: string) returns (m: Machine)
    requires ItemOk(false, i) && Moderate(i.weight)
    ensures Between(m, UnixItem(i).(bitvector := [], owner := None, specialParam := ""))
    ensures Run(Begin(Some(i.vnum)), Render(BodyPieces(i)) + rest) == Run(m, Render(LastPieces(i)) + rest)
  {
    UnixItemOk(i);
    FirstRead(UnixItem(i));
    UnixFirst(i);
    m := TakePieces(Begin(Some(i.vnum)), FirstPieces(UnixItem(i))).value;
    BodyParts(i);
    RenderConcat(FirstPieces(i), LastPieces(i));
    Assoc(Render(FirstPieces(i)), Render(LastPieces(i)), rest);
    PiecesRun(Begin(Some(i.vnum)), FirstPieces(i), Render(LastPieces(i)) + rest);
  }

  lemma LastRun(m: Machine, i: Item, rest: string) returns (m': Machine)
    requires ItemOk(false, i) && ReadBits(i.bitvector).Some?
    requires Between(m, UnixItem(i).(bitvector := [], owner := None, specialParam := ""))
    ensures Between(m', UnixItem(i).(bitvector := ReadBits(i.bitvector).value))
    ensures Run(m, Render(LastPieces(i)) + rest) == Run(m', rest)
  {
    UnixItemOk(i);
    LastRead(m, UnixItem(i));
    UnixLast(i);
    m' := TakePieces(m, LastPieces(UnixItem(i))).value;
    PiecesRun(m, LastPieces(i), rest);
  }

  lemma LastRefused(m: Machine, i: Item, rest: string)
    requires ItemOk(false, i) && ReadBits(i.bitvector) == None && m.state == Optional && m.item.bitvector == []
    ensures Run(m, Render(LastPieces(i)) + rest) == Malformed
  {
    var b := i.bitvector;
    FourParts(BitvectorPieces(b, 0), BitvectorPieces(b, 1), BitvectorPieces(b, 2), OwnerPieces(i.owner),
              Section("P", i.specialParam));
    ZeroRefused(m, b, BitvectorPieces(b, 1) + BitvectorPieces(b, 2) + OwnerPieces(i.owner)
                      + Section("P", i.specialParam), rest);
  }

  lemma FourParts(a: seq<Piece>, b: seq<Piece>, c: seq<Piece>, d: seq<Piece>, e: seq<Piece>)
    ensures a + b + c + d + e == a + (b + c + d + e)
  {
  }

  // ---------- Weights that are printed with an exponent ----------

  lemma CostPlain(i: Item)
    requires NumbersOk(i)
    ensures '\n' !in CostLine(i).text && !EndsInCr(CostLine(i).text)
  {
    WeightWord(i.weight);
    IntField(i.cost);
    IntField(i.rent);
    if i.timer.Some? {
      IntField(i.timer.value);
    }
    TailMatch([Word, Signed, Signed], [WeightText(i.weight), Int(i.cost), Int(i.rent)], Signed, TimerText(i.timer));
  }

  lemma CostUnmatched(i: Item)
    requires NumbersOk(i) && !Moderate(i.weight)
    ensures MatchFields([Decimal, Signed, Signed], false, CostLine(i).text) == None
  {
    var values, last := [WeightText(i.weight), Int(i.cost), Int(i.rent)], " " + OptionText(TimerText(i.timer));
    JoinedStep(values, last);
    ExponentRefused(i.weight, [Decimal, Signed, Signed], " " + (Joined(values[1..]) + last));
  }

  lemma CostRefused(m: Machine, i: Item)
    requires m.state == Numbers3 && NumbersOk(i) && !Moderate(i.weight)
    ensures AfterLine(m, CostLine(i).text) == Fail
  {
    CostUnmatched(i);
  }

  /** What is printed before the last number line, and after it. */
  function EarlyPieces(i: Item): seq<Piece> {
    ItemTexts(i) + [FlagsLine(i), ValuesLine(i), DamageLine(i)]
  }

  function LatePieces(i: Item): seq<Piece> {
    AllPieces(i.extradescs, ExtradescPieces) + AllPieces(i.applies, ApplyPieces) + LastPieces(i)
  }

  lemma EarlyLate(i: Item)
    ensures BodyPieces(i) == EarlyPieces(i) + ([CostLine(i)] + LatePieces(i))
  {
    BodyParts(i);
    Regroup(ItemTexts(i), [FlagsLine(i), ValuesLine(i), DamageLine(i)], CostLine(i),
            AllPieces(i.extradescs, ExtradescPieces), AllPieces(i.applies, ApplyPieces), LastPieces(i));
    assert [FlagsLine(i), ValuesLine(i), DamageLine(i)] + [CostLine(i)] == ItemNumbers(i);
  }

  lemma Regroup(a: seq<Piece>, b: seq<Piece>, p: Piece, c: seq<Piece>, d: seq<Piece>, e: seq<Piece>)
    ensures a + (b + [p]) + c + d + e == a + b + ([p] + (c + d + e))
  {
  }

  lemma UnixEarly(i: Item)
    ensures UnixPieces(EarlyPieces(i)) == EarlyPieces(UnixItem(i))
  {
    UnixPieces4(TildeStr(i.aliases), TildeStr(i.name), TildeStr(i.lineDesc), TildeStr(i.actionDesc));
    UnixPieces2(FlagsLine(i), ValuesLine(i));
    UnixPieces2(DamageLine(i), DamageLine(i));
    assert UnixPieces([DamageLine(i)]) == [DamageLine(i)];
    UnixPiecesConcat([FlagsLine(i), ValuesLine(i)], [DamageLine(i)]);
    assert [FlagsLine(i), ValuesLine(i)] + [DamageLine(i)] == [FlagsLine(i), ValuesLine(i), DamageLine(i)];
    UnixPiecesConcat(ItemTexts(i), [FlagsLine(i), ValuesLine(i), DamageLine(i)]);
  }

  lemma EarlyRead(i: Item) returns (m: Machine)
    requires TextsOk(false, i) && NumbersOk(i)
    ensures TakePieces(Begin(Some(i.vnum)), EarlyPieces(i)) == Some(m) && m.state == Numbers3
  {
    var m0 := Begin(Some(i.vnum));
    TextsRead(m0, i);
    var m1 := m0.(state := Numbers1, item := m0.item.(aliases := i.aliases, name := i.name, lineDesc := i.lineDesc,
                                                      actionDesc := i.actionDesc));
    m := ThreeLinesRead(m1, i);
    Extend(TakePiece, m0, ItemTexts(i), m1, [FlagsLine(i), ValuesLine(i), DamageLine(i)]);
  }

  /** An object whose weight is printed with an exponent is refused when read back. */
  lemma WeightRefused(i: Item, rest: string)
    requires ItemOk(false, i) && !Moderate(i.weight)
    ensures Run(Begin(Some(i.vnum)), Render(BodyPieces(i)) + rest) == Malformed
  {
    var start, line := Begin(Some(i.vnum)), CostLine(i);
    UnixItemOk(i);
    UnixEarly(i);
    var m := EarlyRead(UnixItem(i));
    CostRefused(m, i);
    CostPlain(i);
    EarlyLate(i);
    RenderConcat(EarlyPieces(i), [line] + LatePieces(i));
    Assoc(Render(EarlyPieces(i)), Render([line] + LatePieces(i)), rest);
    PiecesRun(start, EarlyPieces(i), Render([line] + LatePieces(i)) + rest);
    LineRefused(m, line.text, LatePieces(i), rest);
  }

  /** 0.00001 is a weight that the reader takes and the printer spoils. */
  lemma TinySpoiled(i: Item, rest: string)
    requires ItemOk(false, i)
    ensures WeightOf("0.00001") == Weight(0, "00001") && WeightText(Weight(0, "00001")) == "1.0e-05"
    ensures Run(Begin(Some(i.vnum)), Render(BodyPieces(i.(weight := Weight(0, "00001")))) + rest) == Malformed
  {
    TinyText();
    TinyRead();
    WeightRefused(i.(weight := Weight(0, "00001")), rest);
  }

  /** So is 10000000000000000. */
  lemma HugeSpoiled(i: Item, rest: string)
    requires ItemOk(false, i)
    ensures WeightOf("10000000000000000") == Weight(LARGE, "0") && WeightText(Weight(LARGE, "0")) == "1.0e+16"
    ensures Run(Begin(Some(i.vnum)), Render(BodyPieces(i.(weight := Weight(LARGE, "0")))) + rest) == Malformed
  {
    SixteenText();
    WeightRefused(i.(weight := Weight(LARGE, "0")), rest);
  }

  lemma ReadBack(i: Item, rest: string) returns (m: Machine)
    requires ItemOk(false, i)
    ensures Moderate(i.weight) && ReadBits(i.bitvector).Some? ==>
      && Between(m, UnixItem(i).(bitvector := ReadBits(i.bitvector).value))
      && Run(Begin(Some(i.vnum)), Render(BodyPieces(i)) + rest) == Run(m, rest)
    ensures !Moderate(i.weight) || ReadBits(i.bitvector) == None ==>
      Run(Begin(Some(i.vnum)), Render(BodyPieces(i)) + rest) == Malformed
  {
    if !Moderate(i.weight) {
      WeightRefused(i, rest);
      m := Begin(None);
    } else {
      m := FirstRun(i, rest);
      if ReadBits(i.bitvector).Some? {
        m := LastRun(m, i, rest);
      } else {
        LastRefused(m, i, rest);
      }
    }
  }

  // ---------- The end of a record ----------

  /** What closes a record: the number line of the next one, or the end mark. */
  function CloseText(next: Option<int>): string {
    if next.Some? then VnumLine(next.value) else "$\n"
  }

  function Closed(i: Item, next: Option<int>, rest: string): Outcome {
    if next.Some? then Followed(i, next.value, rest) else Ended(i, rest)
  }

  lemma NextRead(m: Machine, vnum: int)
    requires m.state == Optional && vnum >= 0
    ensures AfterLine(m, "#" + Int(vnum)) == Next(vnum)
    ensures '\n' !in "#" + Int(vnum) && !EndsInCr("#" + Int(vnum))
  {
    var line := "#" + Int(vnum);
    OneNumber(vnum);
    assert line[1..] == Int(vnum);
    assert Int(vnum)[|Int(vnum)| - 1] in Int(vnum);
  }

  lemma CloseRead(m: Machine, next: Option<int>, rest: string)
    requires m.state == Optional && (next.Some? ==> next.value >= 0)
    ensures Run(m, CloseText(next) + rest) == Closed(m.item, next, rest)
  {
    if next.Some? {
      NextRead(m, next.value);
      GetPrintedLine("#" + Int(next.value), rest);
    } else {
      GetPrintedLine("$", rest);
      assert "$" + "\n" == "$\n";
    }
  }

  // ---------- What the machine can build ----------

  /** In these states the words of the first number line have not been read. */
  predicate Early(s: State) {
    s.Vnum? || s.Aliases? || s.Name? || s.LineDesc? || s.ActionDesc? || s.Numbers1?
  }

  predicate MachineOk(strict: bool, m: Machine) {
    && TextsOk(strict, m.item) && ListsOk(strict, m.item) && BitsOk(m.item.bitvector)
    && (!Early(m.state) ==> NumbersOk(m.item))
    && m.item.value3 >= 0 && m.item.material >= 0
    && Numeral(m.item.weight)
    && ExtradescOk(strict, m.extradesc)
  }

  lemma AfterTildeOk(strict: bool, m: Machine, t: string)
    requires MachineOk(strict, m) && !ReadsLine(m.state) && TextOk(strict, t)
    ensures MachineOk(strict, AfterTilde(m, t))
  {
  }

  lemma GapEmpty(n: nat)
    ensures |Gap(n)| == n && forall k | 0 <= k < n :: Gap(n)[k] == None
  {
  }

  lemma StoreBitsOk(bits: seq<Option<string>>, index: int, word: string)
    requires BitsOk(bits) && WordOk(word) && index >= -1 && StoreBits(bits, index, word).Some?
    ensures BitsOk(StoreBits(bits, index, word).value)
  {
    if index >= |bits| {
      GapEmpty(index - |bits|);
    }
  }

  lemma AfterBitvectorOk(strict: bool, m: Machine, line: string)
    requires MachineOk(strict, m) && m.state == Bitvector && AfterBitvector(m, line).Go?
    ensures MachineOk(strict, AfterBitvector(m, line).m)
  {
    var f := FindFields([Digit, Word], line).value;
    assert Word.All(f.values[1]);
    StoreBitsOk(m.item.bitvector, NatOf(f.values[0]) - 1, f.values[1]);
  }

  lemma WithNumbers1Ok(strict: bool, m: Machine, f: Fields)
    requires MachineOk(strict, m) && AllInClass([Digit, Word, Word, Word], f.values)
    ensures MachineOk(strict, WithNumbers1(m, f))
  {
    IntOfDigits(f.values[0]);
    assert Word.All(f.values[1]) && Word.All(f.values[2]) && Word.All(f.values[3]);
  }

  lemma WithValuesOk(strict: bool, m: Machine, f: Fields)
    requires MachineOk(strict, m) && m.state == Values && AllInClass([Signed, Signed, Signed], f.values)
    ensures MachineOk(strict, WithValues(m, f))
  {
    var last := Trailing(Digit, f.rest);
    if last.Some? {
      IntOfDigits(last.value);
    }
  }

  lemma AfterOptionalOk(strict: bool, m: Machine, line: string)
    requires MachineOk(strict, m) && m.state == Optional
    ensures AfterOptional(m, line).Go? ==> MachineOk(strict, AfterOptional(m, line).m)
    ensures AfterOptional(m, line).Next? ==> AfterOptional(m, line).vnum >= 0
  {
    if line != "" && line[0] == '#' && MatchFields([Digit], false, line[1..]).Some? {
      IntOfDigits(MatchFields([Digit], false, line[1..]).value.values[0]);
    } else if |line| >= 2 && line[0] == 'O' && MatchFields([Digit], false, line[2..]).Some? {
      IntOfDigits(MatchFields([Digit], false, line[2..]).value.values[0]);
    }
  }

  lemma AfterLineOk(strict: bool, m: Machine, line: string)
    requires MachineOk(strict, m) && ReadsLine(m.state) && AfterLine(m, line).Go?
    ensures MachineOk(strict, AfterLine(m, line).m)
  {
    match m.state
    case Vnum =>
    case Numbers1 => WithNumbers1Ok(strict, m, MatchFields([Digit, Word, Word, Word], false, line).value);
    case Values => WithValuesOk(strict, m, MatchFields([Signed, Signed, Signed], false, line).value);
    case Numbers2 => IntOfDigits(MatchFields([Digit, Signed, Signed], false, line).value.values[0]);
    case Numbers3 =>
    case Optional => AfterOptionalOk(strict, m, line);
    case ApplyLine => IntOfDigits(MatchFields([Digit, Signed], false, line).value.values[0]);
    case Bitvector => AfterBitvectorOk(strict, m, line);
  }

  lemma {:induction false} RunOk(strict: bool, m: Machine, s: string)
    requires MachineOk(strict, m) && (strict ==> SingleCr(s))
    requires Run(m, s).Followed? || Run(m, s).Ended?
    ensures ItemOk(strict, Run(m, s).item) && (strict ==> SingleCr(Run(m, s).rest))
    ensures Run(m, s).Followed? ==> Run(m, s).vnum >= 0
    decreases |s|
  {
    var next := GetLine(s);
    if strict {
      GetLineOfSingleCr(s);
    }
    if !ReadsLine(m.state) {
      var t := ReadTilde(next.line, next.rest);
      if strict {
        ReadTildeCarried(next.line, next.rest);
      }
      AfterTildeOk(strict, m, t.line);
      RunOk(strict, AfterTilde(m, t.line), t.rest);
    } else if AfterLine(m, next.line).Go? {
      AfterLineOk(strict, m, next.line);
      RunOk(strict, AfterLine(m, next.line).m, next.rest);
    } else {
      RunEndOk(strict, m, s);
    }
  }

  lemma RunEndOk(strict: bool, m: Machine, s: string)
    requires s != "" && MachineOk(strict, m) && (strict ==> SingleCr(s)) && ReadsLine(m.state)
    requires !AfterLine(m, GetLine(s).line).Go? && (Run(m, s).Followed? || Run(m, s).Ended?)
    ensures ItemOk(strict, Run(m, s).item) && (strict ==> SingleCr(Run(m, s).rest))
    ensures Run(m, s).Followed? ==> Run(m, s).vnum >= 0
  {
    if strict {
      GetLineOfSingleCr(s);
    }
    assert m.state == Optional;
    AfterOptionalOk(strict, m, GetLine(s).line);
  }

  /** Every object that a record can be read as, whatever order its optional sections come in, can be
      printed and read again exactly when it has no bitvector and a weight that is printed without an
      exponent. Of a text with two carriage returns before a newline this holds but for those that the
      line ends leave in the object's texts. */
  lemma LoadedRepresentable(vnum: int, s: string)
    ensures var o := Run(Begin(Some(vnum)), s);
      o.Followed? || o.Ended? ==>
        && ItemOk(false, o.item)
        && (SingleCr(s) ==> (Representable(o.item) <==> Moderate(o.item.weight) && o.item.bitvector == []))
  {
    var o := Run(Begin(Some(vnum)), s);
    if o.Followed? || o.Ended? {
      RunOk(false, Begin(Some(vnum)), s);
      if SingleCr(s) {
        RunOk(true, Begin(Some(vnum)), s);
      }
    }
  }

  // ---------- When a printed object is read back as itself ----------

  lemma ReadPlain(s: string, i: Item, next: Option<int>, rest: string)
    requires Run(Begin(Some(i.vnum)), s) == Closed(i, next, rest)
    ensures ItemOk(false, i)
  {
    RunOk(false, Begin(Some(i.vnum)), s);
  }

  lemma UnixSame(i: Item)
    requires ItemOk(false, i)
    ensures Representable(i) <==>
      Moderate(i.weight) && ReadBits(i.bitvector).Some? && UnixItem(i).(bitvector := ReadBits(i.bitvector).value) == i
  {
    UnixItemOk(i);
    ReadBitsSame(i.bitvector);
    if Representable(i) {
      assert UnixItem(i) == i;
    } else if ReadBits(i.bitvector) == Some(i.bitvector) {
      assert UnixItem(i).(bitvector := i.bitvector) == UnixItem(i);
    }
  }

  /** A printed record, followed by what closes it, is read back as the same object exactly when the
      object is representable: no bitvectors, no tilde and no carriage return before a newline in its
      texts, flags of one word, a weight in shortest form that is zero or in 0.0001..10^16,
      and no negative number where only digits
      are read, which includes its last value. */
  lemma RoundTripIff(i: Item, next: Option<int>, rest: string)
    requires next.Some? ==> next.value >= 0
    ensures Run(Begin(Some(i.vnum)), Render(BodyPieces(i)) + (CloseText(next) + rest)) == Closed(i, next, rest)
       <==> Representable(i)
  {
    var s := Render(BodyPieces(i)) + (CloseText(next) + rest);
    if Run(Begin(Some(i.vnum)), s) == Closed(i, next, rest) {
      ReadPlain(s, i, next, rest);
    }
    if ItemOk(false, i) {
      var m := ReadBack(i, CloseText(next) + rest);
      UnixSame(i);
      if Moderate(i.weight) && ReadBits(i.bitvector).Some? {
        CloseRead(m, next, rest);
      }
    }
  }

  // ---------- Whole files ----------

  predicate WellFormed(i: Item) {
    Representable(i) && i.vnum >= 0
  }

  function After(items: seq<Item>): string {
    Records(items) + "$\n"
  }

  lemma AfterNext(items: seq<Item>)
    requires items != []
    ensures After(items) == CloseText(Some(items[0].vnum)) + (Render(BodyPieces(items[0])) + After(items[1..]))
  {
    Assoc(ItemText(items[0]), Records(items[1..]), "$\n");
    Assoc(VnumLine(items[0].vnum), Render(BodyPieces(items[0])), After(items[1..]));
  }

  /** One record, and on to the next whose number has been read. */
  lemma ItemStep(i: Item, vnum: int, rest: string)
    requires WellFormed(i) && vnum >= 0
    ensures ReadItems(i.vnum, Render(BodyPieces(i)) + (VnumLine(vnum) + rest)) == ReadItems(vnum, rest).Prepend(i)
  {
    RoundTripIff(i, Some(vnum), rest);
  }

  lemma ItemsStep(i: Item, more: seq<Item>, tail: string)
    requires WellFormed(i) && more != [] && more[0].vnum >= 0 && ReadItems(more[0].vnum, tail) == Objects(more)
    ensures ReadItems(i.vnum, Render(BodyPieces(i)) + (VnumLine(more[0].vnum) + tail)) == Objects([i] + more)
  {
    ItemStep(i, more[0].vnum, tail);
  }

  lemma ItemLast(i: Item)
    requires WellFormed(i)
    ensures ReadItems(i.vnum, Render(BodyPieces(i)) + "$\n") == Objects([i])
  {
    RoundTripIff(i, None, "");
    assert CloseText(None) + "" == "$\n";
  }

  function From(items: seq<Item>): string
    requires items != []
  {
    Render(BodyPieces(items[0])) + After(items[1..])
  }

  lemma FromLast(i: Item)
    ensures From([i]) == Render(BodyPieces(i)) + "$\n"
  {
    assert [i][1..] == [] && After([]) == "$\n";
  }

  lemma FromMore(i: Item, more: seq<Item>)
    requires more != []
    ensures From([i] + more) == Render(BodyPieces(i)) + (VnumLine(more[0].vnum) + From(more))
  {
    assert ([i] + more)[1..] == more;
    AfterNext(more);
  }

  predicate AllWellFormed(items: seq<Item>) {
    forall k | 0 <= k < |items| :: WellFormed(items[k])
  }

  lemma FirstWellFormed(items: seq<Item>)
    requires items != [] && AllWellFormed(items)
    ensures WellFormed(items[0]) && items[0].vnum >= 0 && AllWellFormed(items[1..]) && [items[0]] + items[1..] == items
  {
  }

  lemma ItemsOne(i: Item)
    requires WellFormed(i)
    ensures ReadItems(i.vnum, From([i])) == Objects([i])
  {
    FromLast(i);
    ItemLast(i);
  }

  lemma ItemsMore(i: Item, more: seq<Item>)
    requires WellFormed(i) && more != [] && more[0].vnum >= 0 && ReadItems(more[0].vnum, From(more)) == Objects(more)
    ensures ReadItems(i.vnum, From([i] + more)) == Objects([i] + more)
  {
    FromMore(i, more);
    ItemsStep(i, more, From(more));
  }

  /** Each load consumes the number line of the record after it and passes the number on. */
  lemma {:induction false} ItemsRead(i: Item, more: seq<Item>)
    requires WellFormed(i) && AllWellFormed(more)
    ensures ReadItems(i.vnum, From([i] + more)) == Objects([i] + more)
    decreases |more|
  {
    if more == [] {
      ItemsOne(i);
      assert [i] + more == [i];
    } else {
      FirstWellFormed(more);
      ItemsRead(more[0], more[1..]);
      ItemsMore(i, more);
    }
  }

  lemma FirstVnum(vnum: int, rest: string)
    requires vnum >= 0
    ensures SkipToVnum(VnumLine(vnum) + rest) == Some((vnum, rest))
  {
    var line := "#" + Int(vnum);
    OneNumber(vnum);
    assert line[1..] == Int(vnum);
    GetPrintedLine(line, rest);
  }

  lemma NoItems()
    ensures ReadObjects(FileText([])) == Objects([])
  {
    GetPrintedLine("$", "");
    assert SkipToVnum("") == None;
    assert SkipToVnum("$" + "\n" + "") == None;
    assert FileText([]) == "$" + "\n" + "";
  }

  lemma SomeItems(items: seq<Item>)
    requires items != [] && items[0].vnum >= 0
    ensures ReadObjects(FileText(items)) == ReadItems(items[0].vnum, From(items))
  {
    AfterNext(items);
    FirstVnum(items[0].vnum, From(items));
  }

  /** Printing any list of well-formed objects and reading the file gives back the list. */
  lemma FileRoundTrip(items: seq<Item>)
    requires forall k | 0 <= k < |items| :: WellFormed(items[k])
    ensures ReadObjects(FileText(items)) == Objects(items)
  {
    if items == [] {
      NoItems();
    } else {
      FirstWellFormed(items);
      SomeItems(items);
      ItemsRead(items[0], items[1..]);
    }
  }
}
