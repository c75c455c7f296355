/** An object of an object file that prints itself into a growing text and fills itself in from the
    lines of the file, field by field. */
module ItemRecord {
  import opened Text
  import opened Pieces
  import opened Extradescs
  import opened Inputs
  import opened Weights
  import opened Items

  /** What load returns: the number of the next record, nothing at the end mark, false, the input
      object at the end of the text, or an exception. */
  datatype LoadResult = NextVnum(vnum: int) | Nil | False | AtEnd | Raised

  class ItemRecord {
    var vnum: int
    var aliases: string
    var name: string
    var lineDesc: string
    var actionDesc: string
    var kind: int
    var extra: string
    var extra2: string
    var worn: string
    var extra3: Option<string>
    var values: (int, int, int, int)
    var material: int
    var maxDam: int
    var damage: int
    var weight: Weight
    var cost: int
    var rent: int
    var timer: Option<int>
    var extradescs: seq<Extradesc>
    var applies: seq<Apply>
    var bitvector: seq<Option<string>>
    var owner: Option<int>
    var specialParam: string

    // What a load keeps between lines.
    var state: State
    var extradesc: Extradesc

    function Value(): Item
      reads this
    {
      Item(vnum, aliases, name, lineDesc, actionDesc, kind, extra, extra2, worn, extra3,
           values.0, values.1, values.2, values.3, material, maxDam, damage, weight, cost, rent, timer,
           extradescs, applies, bitvector, owner, specialParam)
    }

    function AsMachine(): Machine
      reads this
    {
      Machine(state, Value(), extradesc)
    }

    /** A new object, about to be loaded after the number of a record has been read or not. */
    constructor (lastVnum: Option<int>)
      ensures AsMachine() == Begin(lastVnum)
    {
      vnum := if lastVnum.Some? then lastVnum.value else 0;
      state := if lastVnum.Some? then Aliases else Vnum;
      aliases, name, lineDesc, actionDesc := "", "", "", "";
      kind, extra, extra2, worn, extra3 := 0, "", "", "", None;
      values, material, maxDam, damage := (0, 0, 0, 0), 0, 0, 0;
      weight, cost, rent, timer := Weight(0, "0"), 0, 0, None;
      extradescs, applies, bitvector, owner, specialParam := [], [], [], None, "";
      extradesc := Extradesc("", "");
    }

    // ---------- Printing ----------

    method ToS() returns (result: string)
      ensures result == ItemText(Value())
    {
      result := VnumLine(vnum);
      var body := BodyToS();
      result := result + body;
    }

    method BodyToS() returns (result: string)
      ensures result == Render(BodyPieces(Value()))
    {
      ghost var ps := ItemTexts(Value()) + ItemNumbers(Value());
      result := FixedText(Value());
      FixedTextOf(Value());
      result := AddExtradescs(extradescs, result, ps);
      ps := ps + AllPieces(extradescs, ExtradescPieces);
      result := AddApplies(result, ps);
      ps := ps + AllPieces(applies, ApplyPieces);
      result := AddBitvectors(result, ps);
      ps := ps + BitvectorsPieces(bitvector);
      if owner.Some? {
        LineText(ps, "O " + Int(owner.value));
        result := result + ("O " + Int(owner.value) + "\n");
      } else {
        assert ps + [] == ps;
      }
      ps := ps + OwnerPieces(owner);
      result := AddSection(result, "P", specialParam, ps);
    }

    method AddApplies(before: string, ghost ps: seq<Piece>) returns (result: string)
      requires before == Render(ps)
      ensures result == Render(ps + AllPieces(applies, ApplyPieces))
    {
      result := before;
      NoPieces(ps, applies, ApplyPieces);
      for i := 0 to |applies|
        invariant result == Render(ps + AllPieces(applies[..i], ApplyPieces))
      {
        ApplyTextOf(applies[i]);
        GrowPieces(ps, applies, ApplyPieces, i);
        result := result + ApplyText(applies[i]);
      }
      assert applies[..|applies|] == applies;
    }

    method AddBitvectors(before: string, ghost ps: seq<Piece>) returns (result: string)
      requires before == Render(ps)
      ensures result == Render(ps + BitvectorsPieces(bitvector))
    {
      result := before;
      ghost var done: seq<Piece> := [];
      assert ps + done == ps;
      for bitv := 0 to 3
        invariant result == Render(ps + done)
        invariant done == BitvectorsTo(bitvector, bitv)
      {
        BitvectorText(ps, done, bitvector, bitv);
        if bitv < |bitvector| && bitvector[bitv].Some? {
          result := result + ("V\n" + Int(bitv) + " " + bitvector[bitv].value + "\n");
        }
        done := done + BitvectorPieces(bitvector, bitv);
      }
      BitvectorsToAll(bitvector);
    }

    // ---------- Reading ----------

    method TakeTilde(t: string)
      requires !ReadsLine(state)
      modifies this
      ensures AsMachine() == AfterTilde(old(AsMachine()), t)
    {
      if state == Aliases || state == Name {
        TakeName(t);
      } else if state == LineDesc || state == ActionDesc {
        TakeText(t);
      } else if state == ExDescrip {
        StoreExtradesc(extradesc.(description := t));
      } else {
        TakeOptionalTilde(t);
      }
    }

    method TakeName(t: string)
      requires state == Aliases || state == Name
      modifies this
      ensures AsMachine() == AfterTilde(old(AsMachine()), t)
    {
      if state == Aliases {
        aliases, state := t, Name;
      } else {
        name, state := t, LineDesc;
      }
    }

    method TakeText(t: string)
      requires state == LineDesc || state == ActionDesc
      modifies this
      ensures AsMachine() == AfterTilde(old(AsMachine()), t)
    {
      if state == LineDesc {
        lineDesc, state := t, ActionDesc;
      } else {
        actionDesc, state := t, Numbers1;
      }
    }

    method StoreExtradesc(x: Extradesc)
      modifies this
      ensures AsMachine() == old(AsMachine()).(state := Optional, extradesc := x,
                item := old(Value()).(extradescs := old(extradescs) + [x]))
    {
      extradesc, extradescs, state := x, extradescs + [x], Optional;
    }

    method TakeOptionalTilde(t: string)
      requires state == ExKeywords || state == SpecialParam
      modifies this
      ensures AsMachine() == AfterTilde(old(AsMachine()), t)
    {
      if state == ExKeywords {
        extradesc, state := Extradesc(t, ""), ExDescrip;
      } else {
        specialParam, state := t, Optional;
      }
    }

    method StoreFlags(e: string, e2: string, w: string)
      modifies this
      ensures AsMachine() == old(AsMachine()).(item := old(Value()).(extra := e, extra2 := e2, worn := w))
    {
      extra, extra2, worn := e, e2, w;
    }

    method StoreNumbers1(f: Fields)
      requires |f.values| == 4
      modifies this
      ensures AsMachine() == WithNumbers1(old(AsMachine()), f)
    {
      StoreFlags(f.values[1], f.values[2], f.values[3]);
      StoreKind(IntOf(f.values[0]), Trailing(Word, f.rest));
    }

    method StoreKind(k: int, e3: Option<string>)
      modifies this
      ensures AsMachine() == old(AsMachine()).(state := Values, item := old(Value()).(kind := k, extra3 := e3))
    {
      kind, extra3, state := k, e3, Values;
    }

    method StoreValues(f: Fields)
      requires |f.values| == 3
      modifies this
      ensures AsMachine() == WithValues(old(AsMachine()), f)
    {
      var last := Trailing(Digit, f.rest);
      values := (IntOf(f.values[0]), IntOf(f.values[1]), IntOf(f.values[2]),
                 if last.Some? then IntOf(last.value) else 0);
      state := Numbers2;
    }

    method StoreNumbers2(f: Fields)
      requires |f.values| == 3
      modifies this
      ensures AsMachine() == WithNumbers2(old(AsMachine()), f)
    {
      StoreDamage(IntOf(f.values[1]), IntOf(f.values[2]));
      material := IntOf(f.values[0]);
      state := Numbers3;
    }

    method StoreDamage(max: int, current: int)
      modifies this
      ensures AsMachine() == old(AsMachine()).(item := old(Value()).(maxDam := max, damage := current))
    {
      maxDam, damage := max, current;
    }

    method StorePrice(c: int, r: int, last: Option<string>)
      modifies this
      ensures AsMachine() == old(AsMachine()).(item := old(Value()).(cost := c, rent := r,
                timer := if last.Some? then Some(IntOf(last.value)) else old(timer)))
    {
      cost, rent := c, r;
      if last.Some? {
        timer := Some(IntOf(last.value));
      }
    }

    method StoreNumbers3(f: Fields)
      requires |f.values| == 3
      modifies this
      ensures AsMachine() == WithNumbers3(old(AsMachine()), f)
    {
      weight := WeightOf(f.values[0]);
      StorePrice(IntOf(f.values[1]), IntOf(f.values[2]), Trailing(Signed, f.rest));
      state := Optional;
    }

    method StoreApply(f: Fields)
      requires |f.values| == 2
      modifies this
      ensures AsMachine() == WithApply(old(AsMachine()), f)
    {
      applies := applies + [Apply(IntOf(f.values[0]), IntOf(f.values[1]))];
      state := Optional;
    }

    /** Whether the numbers on a line were found agrees with the step of the machine. */
    ghost predicate Took(step: LineStep, ok: bool)
      reads this
    {
      if ok then step == Go(AsMachine()) else step == Fail
    }

    method TakeBitvector(line: string) returns (ok: bool)
      requires state == Bitvector
      modifies this
      ensures Took(AfterBitvector(old(AsMachine()), line), ok)
    {
      var f := FindFields([Digit, Word], line);
      var bits := if f.Some? then StoreBits(bitvector, NatOf(f.value.values[0]) - 1, f.value.values[1]) else None;
      ok := bits.Some?;
      if ok {
        StoreBitvector(bits.value);
      }
    }

    method StoreBitvector(bits: seq<Option<string>>)
      modifies this
      ensures AsMachine() == old(AsMachine()).(state := Optional, item := old(Value()).(bitvector := bits))
    {
      bitvector, state := bits, Optional;
    }

    method TakeNumbers(line: string) returns (ok: bool)
      requires ReadsLine(state) && state != Vnum && state != Optional
      modifies this
      ensures Took(AfterLine(old(AsMachine()), line), ok)
    {
      if state == Bitvector {
        ok := TakeBitvector(line);
        return;
      }
      var f := MatchFields(LineClasses(state), false, line);
      ok := f.Some?;
      if ok {
        match state
        case Numbers1 => StoreNumbers1(f.value);
        case Values => StoreValues(f.value);
        case Numbers2 => StoreNumbers2(f.value);
        case Numbers3 => StoreNumbers3(f.value);
        case ApplyLine => StoreApply(f.value);
      }
    }

    /** How the answer to a line agrees with the step of the machine: none when the record goes on. */
    ghost predicate Answers(step: LineStep, stop: Option<LoadResult>, before: Machine)
      reads this
    {
      match step
      case Go(m) => stop == None && AsMachine() == m
      case Next(v) => stop == Some(NextVnum(v)) && AsMachine() == before
      case Last => stop == Some(Nil) && AsMachine() == before
      case NoItem => stop == Some(False) && AsMachine() == before
      case Fail => stop == Some(Raised)
    }

    method TakeVnum(line: string) returns (stop: Option<LoadResult>)
      requires state == Vnum
      modifies this
      ensures Answers(AfterVnum(old(AsMachine()), line), stop, old(AsMachine()))
    {
      if line == "" || (line[0] != '#' && line[0] != '$') {
        return Some(Raised);
      }
      if line[0] == '$' {
        return Some(False);
      }
      vnum := NatOf(line[1..][..Span(Digit, line[1..])]);
      state := Aliases;
      return None;
    }

    method TakeOptional(line: string) returns (stop: Option<LoadResult>)
      requires state == Optional
      modifies this
      ensures Answers(AfterOptional(old(AsMachine()), line), stop, old(AsMachine()))
    {
      stop := None;
      if line == "" {
        stop := Some(Raised);
      } else if line[0] == '$' {
        stop := Some(Nil);
      } else if line[0] == '#' {
        var f := MatchFields([Digit], false, line[1..]);
        stop := if f.Some? then Some(NextVnum(IntOf(f.value.values[0]))) else Some(Raised);
      } else if line[0] == 'O' {
        var f := if |line| >= 2 && line[1] == ' ' then MatchFields([Digit], false, line[2..]) else None;
        if f.Some? {
          owner := Some(IntOf(f.value.values[0]));
        } else {
          stop := Some(Raised);
        }
      } else {
        stop := OpenSection(line);
      }
    }

    method OpenSection(line: string) returns (stop: Option<LoadResult>)
      requires state == Optional && line != "" && line[0] != '$' && line[0] != '#' && line[0] != 'O'
      modifies this`state
      ensures Answers(AfterOptional(old(AsMachine()), line), stop, old(AsMachine()))
    {
      stop := None;
      if line[0] == 'E' {
        state := ExKeywords;
      } else if line[0] == 'A' {
        state := ApplyLine;
      } else if line[0] == 'V' {
        state := Bitvector;
      } else if line[0] == 'P' {
        state := SpecialParam;
      } else {
        stop := Some(Raised);
      }
    }

    method TakeLine(line: string) returns (stop: Option<LoadResult>)
      requires ReadsLine(state)
      modifies this
      ensures Answers(AfterLine(old(AsMachine()), line), stop, old(AsMachine()))
    {
      if state == Vnum {
        stop := TakeVnum(line);
      } else if state == Optional {
        stop := TakeOptional(line);
      } else {
        var ok := TakeNumbers(line);
        stop := if ok then None else Some(Raised);
      }
    }

    /** Fills the object in from the lines of inf until the record is closed. */
    method Load(inf: Input) returns (result: LoadResult)
      modifies this, inf
      ensures match Run(old(AsMachine()), old(inf.rest))
              case Followed(i, v, rest) => result == NextVnum(v) && Value() == i && inf.rest == rest
              case Ended(i, rest) => result == Nil && Value() == i && inf.rest == rest
              case Nothing(rest) => result == False && inf.rest == rest
              case Truncated(i) => result == AtEnd && Value() == i && inf.rest == ""
              case Malformed => result == Raised
    {
      while inf.rest != ""
        invariant Run(AsMachine(), inf.rest) == Run(old(AsMachine()), old(inf.rest))
        decreases |inf.rest|
      {
        var line := inf.Gets();
        if !ReadsLine(state) {
          var text := inf.ReadTildeStr(line);
          TakeTilde(text);
        } else {
          var stop := TakeLine(line);
          if stop.Some? {
            return stop.value;
          }
        }
      }
      result := AtEnd;
    }
  }

  /** The fields that a line of numbers must start with. */
  function LineClasses(s: State): seq<CharClass> {
    match s
    case Numbers1 => [Digit, Word, Word, Word]
    case Values => [Signed, Signed, Signed]
    case Numbers2 => [Digit, Signed, Signed]
    case Numbers3 => [Decimal, Signed, Signed]
    case ApplyLine => [Digit, Signed]
    case _ => []
  }

  // ---------- Whole files ----------

  /** Reads lines up to the first number line. */
  method SkipLines(inf: Input) returns (vnum: Option<int>)
    modifies inf
    ensures match SkipToVnum(old(inf.rest))
            case None => vnum == None && inf.rest == ""
            case Some((v, rest)) => vnum == Some(v) && inf.rest == rest
  {
    while inf.rest != ""
      invariant SkipToVnum(inf.rest) == SkipToVnum(old(inf.rest))
      decreases |inf.rest|
    {
      var line := inf.Gets();
      if line != "" && line[0] == '#' {
        var f := MatchFields([Digit], false, line[1..]);
        if f.Some? {
          return Some(IntOf(f.value.values[0]));
        }
      }
    }
    vnum := None;
  }

  /** The objects of a file. At the end of a text without an end mark the source would go on for ever;
      here the method gives up. */
  method ReadObjectFile(inf: Input) returns (result: FileResult)
    modifies inf
    ensures result == ReadObjects(old(inf.rest))
  {
    var items: seq<Item> := [];
    var vnum := SkipLines(inf);
    if vnum == None {
      return Objects(items);
    }
    var last := vnum.value;
    ghost var whole := ReadItems(last, inf.rest);
    while true
      invariant ReadItems(last, inf.rest).PrependAll(items) == whole
      decreases |inf.rest|
    {
      var record := new ItemRecord(Some(last));
      var loaded := record.Load(inf);
      match loaded
      case NextVnum(v) =>
        PrependMore(items, record.Value(), ReadItems(v, inf.rest));
        items := items + [record.Value()];
        last := v;
      case Nil =>
        return Objects(items + [record.Value()]);
      case False =>
        return Bad;
      case AtEnd =>
        return Endless;
      case Raised =>
        return Bad;
    }
  }

  lemma PrependMore(items: seq<Item>, i: Item, more: FileResult)
    ensures more.Prepend(i).PrependAll(items) == more.PrependAll(items + [i])
  {
    if more.Objects? {
      assert items + [i] + more.items == items + ([i] + more.items);
    }
  }

  // ---------- The printed form of the parts ----------

  function ApplyText(a: Apply): string {
    "A\n" + Int(a.key) + " " + Int(a.value) + "\n"
  }

  /** The texts and the four lines of numbers. */
  function FixedText(i: Item): string {
    i.aliases + "~\n" + i.name + "~\n" + i.lineDesc + "~\n" + i.actionDesc + "~\n"
    + (Int(i.kind) + " " + i.extra + " " + i.extra2 + " " + i.worn + " " + OptionText(i.extra3) + "\n")
    + (Int(i.value0) + " " + Int(i.value1) + " " + Int(i.value2) + " " + Int(i.value3) + "\n")
    + (Int(i.material) + " " + Int(i.maxDam) + " " + Int(i.damage) + " " + WeightText(i.weight) + "\n")
    + (WeightText(i.weight) + " " + Int(i.cost) + " " + Int(i.rent) + " " + OptionText(TimerText(i.timer)) + "\n")
  }

  function BitvectorsTo(bits: seq<Option<string>>, n: nat): seq<Piece> {
    if n == 0 then [] else BitvectorsTo(bits, n - 1) + BitvectorPieces(bits, n - 1)
  }

  lemma BitvectorsToAll(bits: seq<Option<string>>)
    ensures BitvectorsTo(bits, 3) == BitvectorsPieces(bits)
  {
    assert BitvectorsTo(bits, 1) == BitvectorPieces(bits, 0);
    assert BitvectorsTo(bits, 3) == BitvectorsTo(bits, 2) + BitvectorPieces(bits, 2);
  }

  lemma BitvectorText(ps: seq<Piece>, done: seq<Piece>, bits: seq<Option<string>>, index: nat)
    ensures Render(ps + (done + BitvectorPieces(bits, index)))
         == if index < |bits| && bits[index].Some?
            then Render(ps + done) + ("V\n" + Int(index) + " " + bits[index].value + "\n") else Render(ps + done)
  {
    assert ps + (done + BitvectorPieces(bits, index)) == ps + done + BitvectorPieces(bits, index);
    if index < |bits| && bits[index].Some? {
      var a, b := Int(index), bits[index].value;
      RenderConcat(ps + done, BitvectorPieces(bits, index));
      Render2(Line("V"), Line(Joined([a, b])));
      Joined2(a, b);
      Flat1("V\n", a, b);
    } else {
      assert ps + done + [] == ps + done;
    }
  }

  lemma ApplyTextOf(a: Apply)
    ensures Render(ApplyPieces(a)) == ApplyText(a)
  {
    Render2(Line("A"), Line(Joined([Int(a.key), Int(a.value)])));
    Joined2(Int(a.key), Int(a.value));
    Flat1("A\n", Int(a.key), Int(a.value));
  }

  lemma Flat1(before: string, a: string, b: string)
    ensures before + (a + " " + b + "\n") == before + a + " " + b + "\n"
  {
  }

  lemma Joined2(a: string, b: string)
    ensures Joined([a, b]) == a + " " + b
  {
    assert [a, b][1..] == [b];
  }

  lemma TextsTextOf(i: Item)
    ensures Render(ItemTexts(i)) == i.aliases + "~\n" + i.name + "~\n" + i.lineDesc + "~\n" + i.actionDesc + "~\n"
  {
    var ps := ItemTexts(i);
    assert ps == [ps[0], ps[1]] + [ps[2], ps[3]];
    RenderConcat([ps[0], ps[1]], [ps[2], ps[3]]);
    Render2(ps[0], ps[1]);
    Render2(ps[2], ps[3]);
    FlatTexts(i.aliases, i.name, i.lineDesc, i.actionDesc);
  }

  lemma FlatTexts(a: string, b: string, c: string, d: string)
    ensures ((a + "~\n") + (b + "~\n")) + ((c + "~\n") + (d + "~\n")) == a + "~\n" + b + "~\n" + c + "~\n" + d + "~\n"
  {
  }

  /** The four lines of numbers, each with one field after a last space. */
  lemma NumbersTextOf(i: Item)
    ensures Render(ItemNumbers(i)) == (PieceText(FlagsLine(i)) + PieceText(ValuesLine(i)))
                                      + (PieceText(DamageLine(i)) + PieceText(CostLine(i)))
  {
    var ps := ItemNumbers(i);
    assert ps == [ps[0], ps[1]] + [ps[2], ps[3]];
    RenderConcat([ps[0], ps[1]], [ps[2], ps[3]]);
    Render2(ps[0], ps[1]);
    Render2(ps[2], ps[3]);
  }

  lemma FlatLine3(a: string, b: string, c: string, d: string)
    ensures Joined([a, b, c]) + (" " + d) + "\n" == a + " " + b + " " + c + " " + d + "\n"
  {
    Joined2(b, c);
    assert [a, b, c][1..] == [b, c];
    FlatEnd(a, b, c, d);
  }

  lemma FlatEnd(a: string, b: string, c: string, d: string)
    ensures a + " " + (b + " " + c) + (" " + d) + "\n" == a + " " + b + " " + c + " " + d + "\n"
  {
  }

  lemma FlatLine4(a: string, b: string, c: string, d: string, e: string)
    ensures Joined([a, b, c, d]) + (" " + e) + "\n" == a + " " + b + " " + c + " " + d + " " + e + "\n"
  {
    assert [a, b, c, d][1..] == [b, c, d];
    FlatLine3(b, c, d, e);
    Assoc(a + " ", Joined([b, c, d]), " " + e);
    Assoc(a + " ", Joined([b, c, d]) + (" " + e), "\n");
    FlatStart(a, b, c, d, e);
  }

  lemma FlatStart(a: string, b: string, c: string, d: string, e: string)
    ensures a + " " + (b + " " + c + " " + d + " " + e + "\n") == a + " " + b + " " + c + " " + d + " " + e + "\n"
  {
  }

  lemma Flat5(t: string, a: string, b: string, c: string, d: string)
    ensures t + ((a + b) + (c + d)) == t + a + b + c + d
  {
  }

  lemma FixedTextOf(i: Item)
    ensures Render(ItemTexts(i) + ItemNumbers(i)) == FixedText(i)
  {
    RenderConcat(ItemTexts(i), ItemNumbers(i));
    TextsTextOf(i);
    NumbersTextOf(i);
    FlatLine4(Int(i.kind), i.extra, i.extra2, i.worn, OptionText(i.extra3));
    FlatLine3(Int(i.value0), Int(i.value1), Int(i.value2), Int(i.value3));
    FlatLine3(Int(i.material), Int(i.maxDam), Int(i.damage), WeightText(i.weight));
    FlatLine3(WeightText(i.weight), Int(i.cost), Int(i.rent), OptionText(TimerText(i.timer)));
    Flat5(Render(ItemTexts(i)), PieceText(FlagsLine(i)), PieceText(ValuesLine(i)), PieceText(DamageLine(i)),
          PieceText(CostLine(i)));
  }
}
