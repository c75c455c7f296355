/** Potion chemistry: combining, diluting, distilling and transmuting potions of up to three spells. */
module Potions {
  import opened Text
  import opened Numbers

  datatype Spell = Spell(number: int)

  /** A flask: a potion with its level and three slots, where a slot of 0 or less is empty; a drink, which a
      potion too much diluted becomes; or nothing, when it was used up or exploded. */
  datatype Flask = Potion(level: int, first: int, second: int, third: int) | Drink(kind: int) | Gone

  /** The slots that a mixed potion has before it is filled, which its prototype gives it. */
  datatype Slots = Slots(first: int, second: int, third: int)

  /** The spell in a slot, if there is one. */
  function SlotSpell(v: int): seq<Spell> {
    if v > 0 then [Spell(v)] else []
  }

  function Spells(f: Flask): seq<Spell> {
    match f
    case Potion(_, a, b, c) => SlotSpell(a) + SlotSpell(b) + SlotSpell(c)
    case _ => []
  }

  predicate Sound(f: Flask) {
    f.Potion? ==> 1 <= f.level <= 49
  }

  // ---------- The operations ----------

  /** The slots of two potions in turn. */
  function Mixed(p: Flask, q: Flask): seq<Spell>
    requires p.Potion? && q.Potion?
  {
    SlotSpell(p.first) + SlotSpell(q.first) + SlotSpell(p.second) + SlotSpell(q.second) + SlotSpell(p.third) +
        SlotSpell(q.third)
  }

  /** A mixed potion filled with spells; its other slots stay as they were. */
  function Packed(level: int, spells: seq<Spell>, proto: Slots): Flask
    requires |spells| <= 3
  {
    Potion(level,
           if |spells| > 0 then spells[0].number else proto.first,
           if |spells| > 1 then spells[1].number else proto.second,
           if |spells| > 2 then spells[2].number else proto.third)
  }

  /** The spells in the slots of the prototype behind the first n. */
  function Leftover(n: nat, proto: Slots): seq<Spell> {
    (if n > 0 then [] else SlotSpell(proto.first)) + (if n > 1 then [] else SlotSpell(proto.second))
    + if n > 2 then [] else SlotSpell(proto.third)
  }

  predicate Explodes(p: Flask, q: Flask)
    requires p.Potion? && q.Potion?
  {
    |Mixed(p, q)| > 3 || p.level + q.level > 49
  }

  function Combined(p: Flask, q: Flask, skill: int, proto: Slots): Flask
    requires p.Potion? && q.Potion?
  {
    if Explodes(p, q) then Gone
    else Packed(Max(1, Min(49, Quot((p.level + q.level) * skill, 100))), Mixed(p, q), proto)
  }

  /** A liquid container: how much is in it, or -1 if it is endless, of what kind, and whether poisoned. */
  datatype Container = Container(amount: int, kind: int, poison: int)

  /** How much is to be poured: what is asked for, or all there is, changed by the variation of a low skill.
      None if the container is empty or has less, the request is for nothing or the skill is too low. */
  function Pouring(level: int, liquid: Container, asked: Option<int>, skill: int, variation: int): Option<int> {
    if liquid.amount == 0 then None
    else if asked.Some? && (asked.value <= 0 || (liquid.amount != -1 && asked.value > liquid.amount)) then None
    else if skill < 20 then None
    else
      var amount := if asked.Some? then asked.value else if liquid.amount == -1 then level else liquid.amount;
      Some(Max(1, if skill < 50 then amount + variation else amount))
  }

  /** The potion after so much has been poured in. */
  function Diluted(p: Flask, amount: Option<int>, kind: int): Flask
    requires p.Potion?
  {
    if amount == None then p
    else if p.level - amount.value < 1 then Drink(kind)
    else p.(level := p.level - amount.value)
  }

  /** The container after so much has been poured from it; nothing is taken for a potion that is spoiled. */
  function Poured(liquid: Container, p: Flask, amount: Option<int>): Container
    requires p.Potion?
  {
    if amount == None || p.level - amount.value < 1 || liquid.amount == -1 then liquid
    else if liquid.amount - amount.value == 0 then Container(0, 0, 0)
    else liquid.(amount := liquid.amount - amount.value)
  }

  function Boost(p: Flask, skill: int): int
    requires p.Potion?
  {
    Max(1, Min(49, Quot(p.level * skill, 400)))
  }

  function Distilled(p: Flask, skill: int): Flask
    requires p.Potion?
  {
    if (p.second < 1 && p.third < 1) || skill < 50 then p
    else
      var level := p.level + (|SlotSpell(p.second)| + |SlotSpell(p.third)|) * Boost(p, skill);
      if level > 49 then Gone
      else Potion(level, p.first, Min(p.second, 0), Min(p.third, 0))
  }

  function Transmuted(p: Flask, skill: int): Flask
    requires p.Potion?
  {
    if skill < 80 then p else Potion(p.level, p.second, p.third, p.first)
  }

  // ---------- One operation ----------

  predicate Positive(s: seq<Spell>) {
    forall i | 0 <= i < |s| :: s[i].number > 0
  }

  lemma PositiveBoth(a: seq<Spell>, b: seq<Spell>)
    requires Positive(a) && Positive(b)
    ensures Positive(a + b)
  {
  }

  lemma SpellNumbers(p: Flask, q: Flask)
    requires p.Potion? && q.Potion?
    ensures Positive(Mixed(p, q))
    ensures multiset(Mixed(p, q)) == multiset(Spells(p)) + multiset(Spells(q))
  {
    PositiveBoth(SlotSpell(p.first), SlotSpell(q.first));
    PositiveBoth(SlotSpell(p.first) + SlotSpell(q.first), SlotSpell(p.second));
    PositiveBoth(SlotSpell(p.first) + SlotSpell(q.first) + SlotSpell(p.second), SlotSpell(q.second));
    PositiveBoth(SlotSpell(p.first) + SlotSpell(q.first) + SlotSpell(p.second) + SlotSpell(q.second),
        SlotSpell(p.third));
    PositiveBoth(SlotSpell(p.first) + SlotSpell(q.first) + SlotSpell(p.second) + SlotSpell(q.second)
                 + SlotSpell(p.third), SlotSpell(q.third));
    MixedSame(SlotSpell(p.first), SlotSpell(q.first), SlotSpell(p.second), SlotSpell(q.second), SlotSpell(p.third),
        SlotSpell(q.third));
  }

  lemma MixedSame(a: seq<Spell>, b: seq<Spell>, c: seq<Spell>, d: seq<Spell>, e: seq<Spell>, f: seq<Spell>)
    ensures multiset(a + b + c + d + e + f) == multiset(a + c + e) + multiset(b + d + f)
  {
  }

  lemma PackedSpells(level: int, spells: seq<Spell>, proto: Slots)
    requires |spells| <= 3 && Positive(spells)
    ensures Spells(Packed(level, spells, proto)) == spells + Leftover(|spells|, proto)
  {
  }

  /** Two potions that combine without exploding give one of a level in range with their spells and what the
      slots behind hold, so exactly their spells if and only if those slots are empty. */
  lemma CombinedSpells(p: Flask, q: Flask, skill: int, proto: Slots)
    requires p.Potion? && q.Potion?
    ensures var r, both := Combined(p, q, skill, proto), multiset(Spells(p)) + multiset(Spells(q));
      && Sound(r) && (r.Gone? <==> |Spells(p)| + |Spells(q)| > 3 || p.level + q.level > 49)
      && (!r.Gone? ==> r.Potion? && multiset(Spells(r)) == both + multiset(Leftover(|Mixed(p, q)|, proto)))
  {
    SpellNumbers(p, q);
    assert |multiset(Mixed(p, q))| == |multiset(Spells(p))| + |multiset(Spells(q))|;
    if !Explodes(p, q) {
      PackedSpells(Max(1, Min(49, Quot((p.level + q.level) * skill, 100))), Mixed(p, q), proto);
    }
  }

  lemma Hundredths(a: int, b: int)
    requires b == 100 || b == 400
    ensures var r := Max(1, Min(49, Quot(a, b)));
      1 <= r <= 49 && (r > 1 ==> b * r <= a) && (r < 49 ==> a < b * (r + 1))
  {
  }

  /** The level of a mixture is that share of both levels which the skill is of 100, from 1 to 49; the spells
      that come first are those of the first slots, of the first potion before the second. */
  lemma CombinedIs(p: Flask, q: Flask, skill: int, proto: Slots)
    requires p.Potion? && q.Potion? && !Combined(p, q, skill, proto).Gone?
    ensures var r := Combined(p, q, skill, proto);
      && r.Potion? && 1 <= r.level <= 49
      && (r.level > 1 ==> 100 * r.level <= (p.level + q.level) * skill)
      && (r.level < 49 ==> (p.level + q.level) * skill < 100 * (r.level + 1))
      && (p.first > 0 ==> r.first == p.first)
      && (p.first > 0 && q.first > 0 ==> r.second == q.first)
      && (p.first <= 0 && q.first > 0 ==> r.first == q.first)
      && Spells(r) == Mixed(p, q) + Leftover(|Mixed(p, q)|, proto)
  {
    Hundredths((p.level + q.level) * skill, 100);
    SpellNumbers(p, q);
    PackedSpells(Max(1, Min(49, Quot((p.level + q.level) * skill, 100))), Mixed(p, q), proto);
  }

  /** Distilling takes the second and third spell, and for each of them adds a four-hundredth of the level for
      each point of skill, from 1 to 49; a potion that comes above 49 is gone. */
  lemma DistilledIs(p: Flask, skill: int, b: int)
    requires p.Potion? && skill >= 50 && (p.second > 0 || p.third > 0)
    requires 1 <= b <= 49 && (b > 1 ==> 400 * b <= p.level * skill) && (b < 49 ==> p.level * skill < 400 * (b + 1))
    ensures var level := p.level + (if p.second > 0 then b else 0) + (if p.third > 0 then b else 0);
      Distilled(p, skill) == if level > 49 then Gone
        else Potion(level, p.first, if p.second > 0 then 0 else p.second, if p.third > 0 then 0 else p.third)
  {
    Hundredths(p.level * skill, 400);
    assert Boost(p, skill) == b;
  }

  /** With enough skill the slots move up, the first to the end. */
  lemma TransmutedIs(p: Flask, skill: int)
    requires p.Potion?
    ensures var r := Transmuted(p, skill);
      && r.Potion? && r.level == p.level
      && [r.first, r.second, r.third] ==
           if skill < 80 then [p.first, p.second, p.third] else [p.second, p.third, p.first]
  {
  }

  /** When something is poured, and how much with enough skill: what is asked for, all there is or, from an
      endless container, the level of the potion. */
  lemma PouringIs(level: int, liquid: Container, asked: Option<int>, skill: int, variation: int)
    requires level > 0 && liquid.amount >= -1
    ensures var r := Pouring(level, liquid, asked, skill, variation);
      && (r == None <==> liquid.amount == 0 || skill < 20
                         || (asked.Some? && (asked.value <= 0 || (liquid.amount > 0 && asked.value > liquid.amount))))
      && (r.Some? && skill >= 50 ==>
            r.value == if asked.Some? then asked.value else if liquid.amount > 0 then liquid.amount else level)
      && (r.Some? && skill < 50 ==>
            exists full :: Pouring(level, liquid, asked, 50, 0) == Some(full) && r.value == Max(1, full + variation))
  {
    if Pouring(level, liquid, asked, skill, variation).Some? {
      assert Pouring(level, liquid, asked, 50, 0).Some?;
    }
  }

  /** Three transmutes change nothing. */
  lemma TransmutedThrice(p: Flask, skill: int)
    requires p.Potion?
    ensures Transmuted(Transmuted(Transmuted(p, skill), skill), skill) == p
    ensures multiset(Spells(Transmuted(p, skill))) == multiset(Spells(p))
  {
    MixedSame(SlotSpell(p.first), [], SlotSpell(p.second), [], SlotSpell(p.third), []);
  }

  lemma SlotsOf(p: Flask)
    requires p.Potion?
    ensures multiset(Spells(p)) == multiset(SlotSpell(p.first)) + multiset(SlotSpell(p.second) + SlotSpell(p.third))
  {
    assert Spells(p) == SlotSpell(p.first) + (SlotSpell(p.second) + SlotSpell(p.third));
  }

  lemma Stronger(n: nat, boost: int)
    requires n > 0 && boost > 0
    ensures n * boost > 0
  {
  }

  lemma FirstOnly(p: Flask)
    requires p.Potion? && p.second <= 0 && p.third <= 0
    ensures Spells(p) == SlotSpell(p.first)
  {
  }

  /** Distilling leaves a potion of at most its first spell that is stronger, or none; it cannot be done
      twice. */
  lemma DistilledOnce(p: Flask, skill: int)
    requires p.Potion? && Sound(p)
    ensures var r := Distilled(p, skill);
      && Sound(r) && multiset(Spells(r)) <= multiset(Spells(p))
      && (r.Potion? && r != p ==> r.level > p.level && Spells(r) == SlotSpell(p.first) && Distilled(r, skill) == r)
  {
    var r := Distilled(p, skill);
    if r.Potion? && r != p {
      Stronger(|SlotSpell(p.second)| + |SlotSpell(p.third)|, Boost(p, skill));
      FirstOnly(r);
      SlotsOf(p);
    }
  }

  /** Diluting weakens a potion and leaves its spells, or makes a drink of it exactly when it is too weak. */
  lemma DilutedWeaker(p: Flask, liquid: Container, asked: Option<int>, skill: int, variation: int)
    requires p.Potion? && Sound(p)
    ensures var amount := Pouring(p.level, liquid, asked, skill, variation); var r := Diluted(p, amount, liquid.kind);
      && Sound(r) && (r.Potion? ==> Spells(r) == Spells(p) && (amount.Some? <==> r.level < p.level))
      && (r.Drink? <==> amount.Some? && amount.value >= p.level) && !r.Gone?
  {
  }

  /** A container is not overdrawn exactly when no more is poured than is in it. From a skill of 50 on that is
      always so; below, the variation can take it under 0, even to the -1 of an endless one. */
  lemma NotOverdrawn(p: Flask, liquid: Container, asked: Option<int>, skill: int, variation: int)
    requires p.Potion? && liquid.amount >= 0
    ensures var amount := Pouring(p.level, liquid, asked, skill, variation); var after := Poured(liquid, p, amount);
      && (after.amount >= 0 <==> amount == None || amount.value <= liquid.amount || amount.value >= p.level)
      && (skill >= 50 ==> after.amount >= 0)
  {
  }

  lemma OverdrawnToEndless(p: Flask, kind: int)
    requires p.Potion? && p.level > 4
    ensures Poured(Container(3, kind, 0), p, Pouring(p.level, Container(3, kind, 0), Some(3), 40, 1)).amount == -1
  {
  }

  // ---------- Runs ----------

  datatype Op =
    | Combine(i: nat, j: nat, skill: int)
    | Dilute(i: nat, liquid: Container, asked: Option<int>, skill: int, variation: int)
    | Distill(i: nat, skill: int)
    | Transmute(i: nat, skill: int)

  predicate Has(shelf: seq<Flask>, i: nat) {
    i < |shelf| && shelf[i].Potion?
  }

  /** A combined potion takes the place of the first. */
  function Apply(shelf: seq<Flask>, op: Op, proto: Slots): seq<Flask> {
    if !Has(shelf, op.i) then shelf
    else
      match op
      case Combine(i, j, skill) =>
        if i == j || !Has(shelf, j) then shelf
        else shelf[i := Combined(shelf[i], shelf[j], skill, proto)][j := Gone]
      case Dilute(i, liquid, asked, skill, variation) =>
        shelf[i := Diluted(shelf[i], Pouring(shelf[i].level, liquid, asked, skill, variation), liquid.kind)]
      case Distill(i, skill) => shelf[i := Distilled(shelf[i], skill)]
      case Transmute(i, skill) => shelf[i := Transmuted(shelf[i], skill)]
  }

  function Run(shelf: seq<Flask>, ops: seq<Op>, proto: Slots): seq<Flask>
    decreases |ops|
  {
    if ops == [] then shelf else Run(Apply(shelf, ops[0], proto), ops[1..], proto)
  }

  function AllSpells(shelf: seq<Flask>): multiset<Spell> {
    if shelf == [] then multiset{} else multiset(Spells(shelf[0])) + AllSpells(shelf[1..])
  }

  predicate AllSound(shelf: seq<Flask>) {
    forall i | 0 <= i < |shelf| :: Sound(shelf[i])
  }

  lemma {:induction false} AllSpellsAfter(shelf: seq<Flask>, k: nat, f: Flask)
    requires k < |shelf|
    ensures AllSpells(shelf[k := f]) + multiset(Spells(shelf[k])) == AllSpells(shelf) + multiset(Spells(f))
    decreases |shelf|
  {
    if k == 0 {
      assert shelf[0 := f][1..] == shelf[1..];
    } else {
      assert shelf[k := f][1..] == shelf[1..][k - 1 := f];
      AllSpellsAfter(shelf[1..], k - 1, f);
      Together(multiset(Spells(shelf[0])), AllSpells(shelf[1..][k - 1 := f]), multiset(Spells(shelf[k])),
               AllSpells(shelf[1..]), multiset(Spells(f)));
    }
  }

  lemma Together(h: multiset<Spell>, a: multiset<Spell>, x: multiset<Spell>, b: multiset<Spell>, y: multiset<Spell>)
    requires a + x == b + y
    ensures h + a + x == h + b + y
  {
    assert h + a + x == h + (a + x) && h + b + y == h + (b + y);
  }

  lemma SubBoth(now: multiset<Spell>, was: multiset<Spell>, f: multiset<Spell>, p: multiset<Spell>)
    requires now + p == was + f && f <= p
    ensures now <= was
  {
    var lost := p - f;
    assert p == f + lost;
    assert now + lost + f == was + f;
    Cancel(now + lost, was, f);
  }

  lemma Cancel(a: multiset<Spell>, b: multiset<Spell>, f: multiset<Spell>)
    requires a + f == b + f
    ensures a == b
  {
    assert a == (a + f) - f && b == (b + f) - f;
  }

  /** One flask that changes for something of no more spells. */
  lemma OneChanges(shelf: seq<Flask>, k: nat, f: Flask)
    requires k < |shelf| && multiset(Spells(f)) <= multiset(Spells(shelf[k]))
    ensures AllSpells(shelf[k := f]) <= AllSpells(shelf)
  {
    AllSpellsAfter(shelf, k, f);
    SubBoth(AllSpells(shelf[k := f]), AllSpells(shelf), multiset(Spells(f)), multiset(Spells(shelf[k])));
  }

  lemma TwoSteps(now: multiset<Spell>, mid: multiset<Spell>, was: multiset<Spell>, p: multiset<Spell>,
                 q: multiset<Spell>, r: multiset<Spell>)
    requires mid + p == was + r && now + q == mid
    ensures now + (p + q) == was + r
  {
  }

  lemma CombineSpells(shelf: seq<Flask>, i: nat, j: nat, r: Flask)
    requires i < |shelf| && j < |shelf| && i != j
    ensures AllSpells(shelf[i := r][j := Gone]) + (multiset(Spells(shelf[i])) + multiset(Spells(shelf[j])))
      == AllSpells(shelf) + multiset(Spells(r))
  {
    AllSpellsAfter(shelf, i, r);
    AllSpellsAfter(shelf[i := r], j, Gone);
    TwoSteps(AllSpells(shelf[i := r][j := Gone]), AllSpells(shelf[i := r]), AllSpells(shelf),
             multiset(Spells(shelf[i])), multiset(Spells(shelf[j])), multiset(Spells(r)));
  }

  lemma TwoChange(shelf: seq<Flask>, i: nat, j: nat, r: Flask)
    requires i < |shelf| && j < |shelf| && i != j
    requires multiset(Spells(r)) <= multiset(Spells(shelf[i])) + multiset(Spells(shelf[j]))
    ensures AllSpells(shelf[i := r][j := Gone]) <= AllSpells(shelf)
  {
    CombineSpells(shelf, i, j, r);
    SubBoth(AllSpells(shelf[i := r][j := Gone]), AllSpells(shelf), multiset(Spells(r)),
            multiset(Spells(shelf[i])) + multiset(Spells(shelf[j])));
  }

  /** The prototype of a mixed potion has no spell. */
  predicate Blank(proto: Slots) {
    proto.first <= 0 && proto.second <= 0 && proto.third <= 0
  }

  lemma CombinedSub(p: Flask, q: Flask, skill: int, proto: Slots)
    requires p.Potion? && q.Potion?
    ensures var r := Combined(p, q, skill, proto);
      Sound(r) && (Blank(proto) ==> multiset(Spells(r)) <= multiset(Spells(p)) + multiset(Spells(q)))
  {
    CombinedSpells(p, q, skill, proto);
  }

  lemma ApplySound(shelf: seq<Flask>, op: Op, proto: Slots)
    requires AllSound(shelf)
    ensures AllSound(Apply(shelf, op, proto))
  {
    if Has(shelf, op.i) {
      match op
      case Combine(i, j, skill) =>
        if Has(shelf, j) {
          CombinedSub(shelf[i], shelf[j], skill, proto);
        }
      case Dilute(i, liquid, asked, skill, variation) => DilutedWeaker(shelf[i], liquid, asked, skill, variation);
      case Distill(i, skill) => DistilledOnce(shelf[i], skill);
      case Transmute(i, skill) =>
    }
  }

  lemma ApplySpells(shelf: seq<Flask>, op: Op, proto: Slots)
    requires AllSound(shelf) && Blank(proto)
    ensures AllSpells(Apply(shelf, op, proto)) <= AllSpells(shelf)
  {
    if Has(shelf, op.i) {
      match op
      case Combine(i, j, skill) =>
        if i != j && Has(shelf, j) {
          CombinedSub(shelf[i], shelf[j], skill, proto);
          TwoChange(shelf, i, j, Combined(shelf[i], shelf[j], skill, proto));
        }
      case Dilute(i, liquid, asked, skill, variation) =>
        DilutedWeaker(shelf[i], liquid, asked, skill, variation);
        OneChanges(shelf, i, Diluted(shelf[i], Pouring(shelf[i].level, liquid, asked, skill, variation), liquid.kind));
      case Distill(i, skill) =>
        DistilledOnce(shelf[i], skill);
        OneChanges(shelf, i, Distilled(shelf[i], skill));
      case Transmute(i, skill) =>
        TransmutedThrice(shelf[i], skill);
        OneChanges(shelf, i, Transmuted(shelf[i], skill));
    }
  }

  /** Over any run every potion that is left has a level of 1..49, and if the prototype of mixed potions has
      no spell, no spell comes from nowhere. */
  lemma {:induction false} RunOk(shelf: seq<Flask>, ops: seq<Op>, proto: Slots)
    requires AllSound(shelf)
    ensures AllSound(Run(shelf, ops, proto))
    ensures Blank(proto) ==> AllSpells(Run(shelf, ops, proto)) <= AllSpells(shelf)
    decreases |ops|
  {
    if ops != [] {
      ApplySound(shelf, ops[0], proto);
      if Blank(proto) {
        ApplySpells(shelf, ops[0], proto);
      }
      RunOk(Apply(shelf, ops[0], proto), ops[1..], proto);
    }
  }

  lemma EmptyMixture(proto: Slots)
    ensures Combined(Potion(1, 0, 0, 0), Potion(1, 0, 0, 0), 100, proto) ==
      Potion(2, proto.first, proto.second, proto.third)
  {
    assert Mixed(Potion(1, 0, 0, 0), Potion(1, 0, 0, 0)) == [];
  }

  lemma SomeSpell(p: Flask)
    requires p.Potion?
    ensures Spells(p) == [] <==> p.first <= 0 && p.second <= 0 && p.third <= 0
  {
  }

  /** That the prototype has no spell is also needed: two potions without spells combine to what it has. */
  lemma SpellsFromNowhere(proto: Slots)
    ensures var shelf := [Potion(1, 0, 0, 0), Potion(1, 0, 0, 0)];
      Blank(proto) <==> AllSpells(Apply(shelf, Combine(0, 1, 100), proto)) <= AllSpells(shelf)
  {
    var p, r := Potion(1, 0, 0, 0), Potion(2, proto.first, proto.second, proto.third);
    EmptyMixture(proto);
    assert [p, p][0 := r][1 := Gone] == [r, Gone];
    SomeSpell(p);
    SomeSpell(r);
    TwoFlasks(p, p);
    TwoFlasks(r, Gone);
    NoneSub(Spells(r));
  }

  lemma NoneSub(s: seq<Spell>)
    ensures multiset(s) <= multiset{} <==> s == []
  {
    if s != [] {
      assert s[0] in multiset(s);
    }
  }

  lemma TwoFlasks(f: Flask, g: Flask)
    ensures AllSpells([f, g]) == multiset(Spells(f)) + multiset(Spells(g))
  {
    assert [f, g][1..] == [g] && [g][1..] == [];
    assert AllSpells([g]) == multiset(Spells(g)) + multiset{};
  }

  // ---------- The objects ----------

  datatype Kind = IsPotion | IsDrink | IsGone

  /** A liquid container: its amount, kind and poison are overwritten in place. */
  class Vessel {
    var amount: int
    var kind: int
    var poison: int

    function Value(): Container
      reads this
    {
      Container(amount, kind, poison)
    }
  }

  /** A potion object: its type, level and slots are overwritten in place. */
  class Vial {
    const values: array<int>
    var kind: Kind

    predicate Valid()
      reads this
    {
      values.Length == 4
    }

    function Value(): Flask
      requires Valid()
      reads this, values
    {
      match kind
      case IsPotion => Potion(values[0], values[1], values[2], values[3])
      case IsDrink => Drink(values[2])
      case IsGone => Gone
    }

    /** A mixed potion as its prototype has it, of whatever level. */
    constructor (proto: Slots)
      ensures Valid() && fresh(values) && Value() == Potion(0, proto.first, proto.second, proto.third)
    {
      values := new int[4](i =>
        if i == 0 then 0 else if i == 1 then proto.first else if i == 2 then proto.second else proto.third);
      kind := IsPotion;
    }

    method Extract()
      requires Valid()
      modifies this
      ensures Valid() && Value() == Gone
    {
      kind := IsGone;
    }

    /** How much of a liquid is to be poured in. */
    method Amount(liquid: Vessel, asked: Option<int>, skill: int, variation: int) returns (r: Option<int>)
      requires Valid() && kind == IsPotion
      ensures r == Pouring(Value().level, liquid.Value(), asked, skill, variation)
    {
      if liquid.amount == 0 {
        return None;
      }
      var amt := liquid.amount;
      if amt == -1 {
        amt := values[0];
      }
      if asked.Some? {
        amt := asked.value;
        if amt <= 0 || (liquid.amount != -1 && amt > liquid.amount) {
          return None;
        }
      }
      if skill < 20 {
        return None;
      }
      if skill < 50 {
        amt := amt + variation;
      }
      if amt < 1 {
        amt := 1;
      }
      return Some(amt);
    }

    /** Pours some of a liquid into the potion, or makes a drink of it. */
    method Dilute(liquid: Vessel, asked: Option<int>, skill: int, variation: int)
      requires Valid() && kind == IsPotion
      modifies this, values, liquid
      ensures var amount := Pouring(old(Value()).level, old(liquid.Value()), asked, skill, variation);
        && Valid() && Value() == Diluted(old(Value()), amount, old(liquid.kind))
        && liquid.Value() == Poured(old(liquid.Value()), old(Value()), amount)
    {
      var amount := Amount(liquid, asked, skill, variation);
      if amount == None {
        return;
      }
      var amt := amount.value;
      if values[0] - amt < 1 {
        kind := IsDrink;
        values[0], values[1], values[2], values[3] := 1, 1, liquid.kind, 0;
        return;
      }
      values[0] := values[0] - amt;
      if liquid.amount != -1 {
        liquid.amount := liquid.amount - amt;
        if liquid.amount == 0 {
          liquid.kind := 0;
          liquid.poison := 0;
        }
      }
    }

    method Distill(skill: int)
      requires Valid() && kind == IsPotion
      modifies this, values
      ensures Valid() && Value() == Distilled(old(Value()), skill)
    {
      if (values[2] < 1 && values[3] < 1) || skill < 50 {
        return;
      }
      var boost := Max(1, Min(49, Quot(values[0] * skill, 400)));
      var level := values[0];
      if values[2] > 0 {
        values[2] := 0;
        level := level + boost;
      }
      if values[3] > 0 {
        values[3] := 0;
        level := level + boost;
      }
      if level > 49 {
        kind := IsGone;
        return;
      }
      values[0] := level;
    }

    method Transmute(skill: int)
      requires Valid() && kind == IsPotion
      modifies values
      ensures Valid() && Value() == Transmuted(old(Value()), skill)
    {
      if skill < 80 {
        return;
      }
      var rotated := values[1];
      values[1] := values[2];
      values[2] := values[3];
      values[3] := rotated;
    }
  }

  /** The slots of both potions in turn, up to slot n. */
  function MixedTo(p: Flask, q: Flask, n: nat): seq<Spell>
    requires p.Potion? && q.Potion? && n <= 3
  {
    if n == 0 then []
    else MixedTo(p, q, n - 1) + SlotSpell(Slot(p, n)) + SlotSpell(Slot(q, n))
  }

  function Slot(p: Flask, n: nat): int
    requires p.Potion?
  {
    if n == 1 then p.first else if n == 2 then p.second else p.third
  }

  lemma MixedToAll(p: Flask, q: Flask)
    requires p.Potion? && q.Potion?
    ensures MixedTo(p, q, 3) == Mixed(p, q)
  {
    assert MixedTo(p, q, 1) == SlotSpell(p.first) + SlotSpell(q.first);
    assert MixedTo(p, q, 2) == SlotSpell(p.first) + SlotSpell(q.first) + SlotSpell(p.second) + SlotSpell(q.second);
  }

  /** How many slots of both potions hold a spell. */
  method CountSpells(p: Vial, q: Vial) returns (count: nat)
    requires p.Valid() && q.Valid() && p.kind == q.kind == IsPotion
    ensures count == |Mixed(p.Value(), q.Value())|
  {
    count := 0;
    for idx := 1 to 4
      invariant count == |MixedTo(p.Value(), q.Value(), idx - 1)|
    {
      if p.values[idx] > 0 {
        count := count + 1;
      }
      if q.values[idx] > 0 {
        count := count + 1;
      }
    }
    MixedToAll(p.Value(), q.Value());
  }

  function ProtoSlot(proto: Slots, n: nat): int {
    if n == 1 then proto.first else if n == 2 then proto.second else proto.third
  }

  /** The first slots of v hold the spells, one after the other, and the others are as they were. */
  predicate Holds(v: Vial, spells: seq<Spell>, proto: Slots)
    reads v, v.values
  {
    && v.Valid() && |spells| <= 3
    && forall k | 1 <= k < 4 :: v.values[k] == if k <= |spells| then spells[k - 1].number else ProtoSlot(proto, k)
  }

  /** Puts the spell of a slot, if there is one, behind those that v has. */
  method Add(v: Vial, slot: int, ghost spells: seq<Spell>, ghost proto: Slots, count: nat) returns (next: nat)
    requires Holds(v, spells, proto) && count == |spells| + 1 && |spells + SlotSpell(slot)| <= 3
    modifies v.values
    ensures Holds(v, spells + SlotSpell(slot), proto) && next == |spells + SlotSpell(slot)| + 1
    ensures v.values[0] == old(v.values[0])
  {
    next := count;
    if slot > 0 {
      v.values[next] := slot;
      next := next + 1;
    }
  }

  /** Combines two potions into a new one, which explodes if there is too much in it. */
  method CombineVials(p: Vial, q: Vial, skill: int, proto: Slots) returns (r: Vial)
    requires p.Valid() && q.Valid() && p != q && p.kind == q.kind == IsPotion
    modifies p, q
    ensures fresh(r) && fresh(r.values) && r.Valid()
    ensures r.Value() == Combined(old(p.Value()), old(q.Value()), skill, proto)
    ensures p.Valid() && q.Valid() && p.Value() == q.Value() == Gone
  {
    ghost var pv, qv := p.Value(), q.Value();
    var spellCount := CountSpells(p, q);
    var levelCount := p.values[0] + q.values[0];
    r := new Vial(proto);
    if spellCount > 3 || levelCount > 49 {
      r.Extract();
    } else {
      r.values[0] := Max(1, Min(49, Quot(levelCount * skill, 100)));
      Fill(r, p, q, proto);
    }
    p.Extract();
    q.Extract();
  }

  method Fill(r: Vial, p: Vial, q: Vial, ghost proto: Slots)
    requires p.Valid() && q.Valid() && p.kind == q.kind == IsPotion && r.values != p.values && r.values != q.values
    requires |Mixed(p.Value(), q.Value())| <= 3 && Holds(r, [], proto) && r.kind == IsPotion
    modifies r.values
    ensures r.Value() == Packed(old(r.values[0]), Mixed(p.Value(), q.Value()), proto)
  {
    ghost var pv, qv, level := p.Value(), q.Value(), r.values[0];
    MixedToAll(pv, qv);
    var count := 1;
    for idx := 1 to 4
      invariant p.Value() == pv && q.Value() == qv && r.values[0] == level
      invariant Holds(r, MixedTo(pv, qv, idx - 1), proto) && count == |MixedTo(pv, qv, idx - 1)| + 1
    {
      MixedToShort(pv, qv, idx);
      count := AddBoth(r, p.values[idx], q.values[idx], MixedTo(pv, qv, idx - 1), proto, count);
    }
  }

  method AddBoth(v: Vial, a: int, b: int, ghost spells: seq<Spell>, ghost proto: Slots, count: nat) returns (next: nat)
    requires Holds(v, spells, proto) && count == |spells| + 1 && |spells + SlotSpell(a) + SlotSpell(b)| <= 3
    modifies v.values
    ensures Holds(v, spells + SlotSpell(a) + SlotSpell(b), proto)
    ensures next == |spells + SlotSpell(a) + SlotSpell(b)| + 1 && v.values[0] == old(v.values[0])
  {
    next := Add(v, a, spells, proto, count);
    next := Add(v, b, spells + SlotSpell(a), proto, next);
  }

  lemma MixedToShort(p: Flask, q: Flask, n: nat)
    requires p.Potion? && q.Potion? && n <= 3
    ensures |MixedTo(p, q, n)| <= |Mixed(p, q)|
  {
    MixedToAll(p, q);
    assert |MixedTo(p, q, 2)| <= |MixedTo(p, q, 3)| && |MixedTo(p, q, 1)| <= |MixedTo(p, q, 2)|;
  }
}
