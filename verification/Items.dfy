/** The object records of an object file: their printed form, and the line-driven machine that reads
    them back. A record has no closing line: it ends where the number line of the next one, or the
    end mark of the file, has been read. */
module Items {
  import opened Text
  import opened Pieces
  import opened Extradescs
  import opened Weights

  datatype Apply = Apply(key: int, value: int)

  datatype Item = Item(vnum: int, aliases: string, name: string, lineDesc: string, actionDesc: string,
                       kind: int, extra: string, extra2: string, worn: string, extra3: Option<string>,
                       value0: int, value1: int, value2: int, value3: int,
                       material: int, maxDam: int, damage: int,
                       weight: Weight, cost: int, rent: int, timer: Option<int>,
                       extradescs: seq<Extradesc>, applies: seq<Apply>, bitvector: seq<Option<string>>,
                       owner: Option<int>, specialParam: string)

  const NEW_ITEM := Item(0, "", "", "", "", 0, "", "", "", None, 0, 0, 0, 0, 0, 0, 0, Weight(0, "0"), 0, 0, None,
                        [], [], [], None, "")

  // ---------- Printing ----------

  function OptionText(o: Option<string>): string {
    if o.Some? then o.value else ""
  }

  function FlagsLine(i: Item): Piece {
    Line(Joined([Int(i.kind), i.extra, i.extra2, i.worn]) + (" " + OptionText(i.extra3)))
  }

  function ValuesLine(i: Item): Piece {
    Line(Joined([Int(i.value0), Int(i.value1), Int(i.value2)]) + (" " + Int(i.value3)))
  }

  function DamageLine(i: Item): Piece {
    Line(Joined([Int(i.material), Int(i.maxDam), Int(i.damage)]) + (" " + WeightText(i.weight)))
  }

  function TimerText(timer: Option<int>): Option<string> {
    if timer.Some? then Some(Int(timer.value)) else None
  }

  function CostLine(i: Item): Piece {
    Line(Joined([WeightText(i.weight), Int(i.cost), Int(i.rent)]) + (" " + OptionText(TimerText(i.timer))))
  }

  function ItemTexts(i: Item): seq<Piece> {
    [TildeStr(i.aliases), TildeStr(i.name), TildeStr(i.lineDesc), TildeStr(i.actionDesc)]
  }

  function ItemNumbers(i: Item): seq<Piece> {
    [FlagsLine(i), ValuesLine(i), DamageLine(i), CostLine(i)]
  }

  function ApplyPieces(a: Apply): seq<Piece> {
    [Line("A"), Line(Joined([Int(a.key), Int(a.value)]))]
  }

  function BitvectorPieces(bits: seq<Option<string>>, index: nat): seq<Piece> {
    if index < |bits| && bits[index].Some? then [Line("V"), Line(Joined([Int(index), bits[index].value]))] else []
  }

  function BitvectorsPieces(bits: seq<Option<string>>): seq<Piece> {
    BitvectorPieces(bits, 0) + BitvectorPieces(bits, 1) + BitvectorPieces(bits, 2)
  }

  function OwnerPieces(owner: Option<int>): seq<Piece> {
    if owner.Some? then [Line("O " + Int(owner.value))] else []
  }

  /** Everything after the number line. */
  function BodyPieces(i: Item): seq<Piece> {
    ItemTexts(i) + ItemNumbers(i)
    + AllPieces(i.extradescs, ExtradescPieces)
    + AllPieces(i.applies, ApplyPieces)
    + BitvectorsPieces(i.bitvector)
    + OwnerPieces(i.owner)
    + Section("P", i.specialParam)
  }

  function VnumLine(vnum: int): string {
    "#" + Int(vnum) + "\n"
  }

  function ItemText(i: Item): string {
    VnumLine(i.vnum) + Render(BodyPieces(i))
  }

  // ---------- Reading ----------

  datatype State =
    | Vnum | Aliases | Name | LineDesc | ActionDesc
    | Numbers1 | Values | Numbers2 | Numbers3 | Optional
    | ExKeywords | ExDescrip | ApplyLine | Bitvector | SpecialParam

  predicate ReadsLine(s: State) {
    s.Vnum? || s.Numbers1? || s.Values? || s.Numbers2? || s.Numbers3? || s.Optional? || s.ApplyLine? || s.Bitvector?
  }

  datatype Machine = Machine(state: State, item: Item, extradesc: Extradesc)

  function Begin(lastVnum: Option<int>): Machine {
    match lastVnum
    case Some(v) => Machine(Aliases, NEW_ITEM.(vnum := v), Extradesc("", ""))
    case None => Machine(Vnum, NEW_ITEM, Extradesc("", ""))
  }

  /** The machine after a tilde string. */
  function AfterTilde(m: Machine, t: string): Machine
    requires !ReadsLine(m.state)
  {
    match m.state
    case Aliases => m.(state := Name, item := m.item.(aliases := t))
    case Name => m.(state := LineDesc, item := m.item.(name := t))
    case LineDesc => m.(state := ActionDesc, item := m.item.(lineDesc := t))
    case ActionDesc => m.(state := Numbers1, item := m.item.(actionDesc := t))
    case ExKeywords => m.(state := ExDescrip, extradesc := Extradesc(t, ""))
    case ExDescrip =>
      var x := m.extradesc.(description := t);
      m.(state := Optional, extradesc := x, item := m.item.(extradescs := m.item.extradescs + [x]))
    case SpecialParam => m.(state := Optional, item := m.item.(specialParam := t))
  }

  /** Last: the end mark closes the file. Next: the number line of the next record has been read. */
  datatype LineStep = Go(m: Machine) | Next(vnum: int) | Last | NoItem | Fail

  function AfterVnum(m: Machine, line: string): LineStep {
    if line == "" || (line[0] != '#' && line[0] != '$') then Fail
    else if line[0] == '$' then NoItem
    else Go(m.(state := Aliases, item := m.item.(vnum := NatOf(line[1..][..Span(Digit, line[1..])]))))
  }

  function WithNumbers1(m: Machine, f: Fields): Machine
    requires |f.values| == 4
  {
    m.(state := Values,
       item := m.item.(kind := IntOf(f.values[0]), extra := f.values[1], extra2 := f.values[2], worn := f.values[3],
                       extra3 := Trailing(Word, f.rest)))
  }

  function WithValues(m: Machine, f: Fields): Machine
    requires |f.values| == 3
  {
    var last := Trailing(Digit, f.rest);
    m.(state := Numbers2,
       item := m.item.(value0 := IntOf(f.values[0]), value1 := IntOf(f.values[1]), value2 := IntOf(f.values[2]),
                       value3 := if last.Some? then IntOf(last.value) else 0))
  }

  function WithNumbers2(m: Machine, f: Fields): Machine
    requires |f.values| == 3
  {
    m.(state := Numbers3,
       item := m.item.(material := IntOf(f.values[0]), maxDam := IntOf(f.values[1]), damage := IntOf(f.values[2])))
  }

  function WithNumbers3(m: Machine, f: Fields): Machine
    requires |f.values| == 3
  {
    var last := Trailing(Signed, f.rest);
    m.(state := Optional,
       item := m.item.(weight := WeightOf(f.values[0]), cost := IntOf(f.values[1]), rent := IntOf(f.values[2]),
                       timer := if last.Some? then Some(IntOf(last.value)) else m.item.timer))
  }

  function WithApply(m: Machine, f: Fields): Machine
    requires |f.values| == 2
  {
    var a := Apply(IntOf(f.values[0]), IntOf(f.values[1]));
    m.(state := Optional, item := m.item.(applies := m.item.applies + [a]))
  }

  /** Assignment to an array element: a gap is filled with nothing, and index -1 is the last element,
      which an empty array does not have. */
  function StoreBits(bits: seq<Option<string>>, index: int, word: string): Option<seq<Option<string>>>
    requires index >= -1
  {
    if index == -1 then if bits == [] then None else Some(bits[|bits| - 1 := Some(word)])
    else if index < |bits| then Some(bits[index := Some(word)])
    else Some(bits + Gap(index - |bits|) + [Some(word)])
  }

  function Gap(n: nat): seq<Option<string>> {
    if n == 0 then [] else [None] + Gap(n - 1)
  }

  function AfterBitvector(m: Machine, line: string): LineStep {
    match FindFields([Digit, Word], line)
    case None => Fail
    case Some(f) =>
      match StoreBits(m.item.bitvector, NatOf(f.values[0]) - 1, f.values[1])
      case None => Fail
      case Some(bits) => Go(m.(state := Optional, item := m.item.(bitvector := bits)))
  }

  /** The line that opens an optional section or closes the record. */
  function AfterOptional(m: Machine, line: string): LineStep {
    if line == "" then Fail
    else if line[0] == '$' then Last
    else if line[0] == '#' then
      match MatchFields([Digit], false, line[1..])
      case None => Fail
      case Some(f) => Next(IntOf(f.values[0]))
    else if line[0] == 'E' then Go(m.(state := ExKeywords))
    else if line[0] == 'A' then Go(m.(state := ApplyLine))
    else if line[0] == 'O' then
      match if |line| >= 2 && line[1] == ' ' then MatchFields([Digit], false, line[2..]) else None
      case None => Fail
      case Some(f) => Go(m.(item := m.item.(owner := Some(IntOf(f.values[0])))))
    else if line[0] == 'V' then Go(m.(state := Bitvector))
    else if line[0] == 'P' then Go(m.(state := SpecialParam))
    else Fail
  }

  function AfterLine(m: Machine, line: string): LineStep
    requires ReadsLine(m.state)
  {
    match m.state
    case Vnum => AfterVnum(m, line)
    case Numbers1 =>
      (match MatchFields([Digit, Word, Word, Word], false, line)
       case None => Fail
       case Some(f) => Go(WithNumbers1(m, f)))
    case Values =>
      (match MatchFields([Signed, Signed, Signed], false, line)
       case None => Fail
       case Some(f) => Go(WithValues(m, f)))
    case Numbers2 =>
      (match MatchFields([Digit, Signed, Signed], false, line)
       case None => Fail
       case Some(f) => Go(WithNumbers2(m, f)))
    case Numbers3 =>
      (match MatchFields([Decimal, Signed, Signed], false, line)
       case None => Fail
       case Some(f) => Go(WithNumbers3(m, f)))
    case Optional => AfterOptional(m, line)
    case ApplyLine =>
      (match MatchFields([Digit, Signed], false, line)
       case None => Fail
       case Some(f) => Go(WithApply(m, f)))
    case Bitvector => AfterBitvector(m, line)
  }

  /** How a call of load ends. At the end of the text the source returns its input object, which
      counts as true. */
  datatype Outcome =
    | Followed(item: Item, vnum: int, rest: string)
    | Ended(item: Item, rest: string)
    | Nothing(rest: string)
    | Truncated(item: Item)
    | Malformed

  function Run(m: Machine, s: string): (o: Outcome)
    ensures s != "" && (o.Followed? || o.Ended? || o.Nothing?) ==> |o.rest| < |s|
    ensures s == "" ==> o == Truncated(m.item)
    decreases |s|
  {
    if s == "" then Truncated(m.item)
    else
      var next := GetLine(s);
      if !ReadsLine(m.state) then
        var t := ReadTilde(next.line, next.rest);
        Run(AfterTilde(m, t.line), t.rest)
      else
        match AfterLine(m, next.line)
        case Go(m') => Run(m', next.rest)
        case Next(v) => Followed(m.item, v, next.rest)
        case Last => Ended(m.item, next.rest)
        case NoItem => Nothing(next.rest)
        case Fail => Malformed
  }

  // ---------- Whole files ----------

  function Records(items: seq<Item>): string {
    if items == [] then "" else ItemText(items[0]) + Records(items[1..])
  }

  function FileText(items: seq<Item>): string {
    Records(items) + "$\n"
  }

  /** The first number line of a text. */
  function SkipToVnum(s: string): Option<(int, string)>
    decreases |s|
  {
    if s == "" then None
    else
      var next := GetLine(s);
      var f := if next.line != "" && next.line[0] == '#' then MatchFields([Digit], false, next.line[1..]) else None;
      if f.Some? then Some((IntOf(f.value.values[0]), next.rest)) else SkipToVnum(next.rest)
  }

  /** The objects of a file. A file that ends inside or after a record without an end mark is never
      left: each further load returns the input object, which counts as one more number. */
  datatype FileResult = Objects(items: seq<Item>) | Endless | Bad {
    function Prepend(i: Item): FileResult {
      if Objects? then Objects([i] + items) else this
    }

    function PrependAll(before: seq<Item>): FileResult {
      if Objects? then Objects(before + items) else this
    }
  }

  /** The records from the one numbered vnum on, whose number line has been read already. */
  function ReadItems(vnum: int, s: string): FileResult
    decreases |s|
  {
    match Run(Begin(Some(vnum)), s)
    case Followed(i, v, rest) => ReadItems(v, rest).Prepend(i)
    case Ended(i, _) => Objects([i])
    case Nothing(_) => Bad
    case Truncated(_) => Endless
    case Malformed => Bad
  }

  function ReadObjects(s: string): FileResult {
    match SkipToVnum(s)
    case None => Objects([])
    case Some((vnum, rest)) => ReadItems(vnum, rest)
  }
}
