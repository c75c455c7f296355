/** Assimilation: a cyborg consumes an object and merges the object's affects into its own. */
module Assimilation {
  import opened Text
  import opened Numbers

  datatype Kind = Assimilated | Other(number: int)

  datatype Affect = Affect(kind: Kind, location: int, modifier: int, level: nat, duration: int)

  /** One of an object's affect slots; location 0 is an unused one. */
  datatype Slot = Slot(location: int, modifier: int)

  const APPLY_NONE := 0

  // ---------- Lists of affects ----------

  function Own(affs: seq<Affect>): seq<Affect> {
    if affs == [] then []
    else if affs[0].kind == Assimilated then [affs[0]] + Own(affs[1..])
    else Own(affs[1..])
  }

  function Others(affs: seq<Affect>): seq<Affect> {
    if affs == [] then []
    else if affs[0].kind == Assimilated then Others(affs[1..])
    else [affs[0]] + Others(affs[1..])
  }

  /** The affects put on one by one, each in front; those without effect are not put on. */
  function PutOn(affs: seq<Affect>, rest: seq<Affect>): seq<Affect> {
    if affs == [] then rest
    else PutOn(affs[1..], if affs[0].modifier != 0 then [affs[0]] + rest else rest)
  }

  /** What a slot makes of a modifier: they add up if one is positive and one negative, and otherwise the
      one further from 0 stays, where 0 itself counts as negative. */
  function Combined(had: int, more: int): (r: int)
    ensures Abs(r) <= Abs(had) || Abs(r) <= Abs(more)
  {
    if (had > 0 && more < 0) || (had < 0 && more > 0) then had + more
    else if had > 0 then Max(had, more)
    else Min(had, more)
  }

  /** Of two modifiers on one side of 0 the larger stays, those on different sides add up, and 0 gives way only
      to a negative one. */
  lemma CombinedIs(had: int, more: int)
    ensures var r := Combined(had, more);
      && (had > 0 && more > 0 ==> r > 0 && Abs(r) == Max(Abs(had), Abs(more)))
      && (had < 0 && more < 0 ==> r < 0 && Abs(r) == Max(Abs(had), Abs(more)))
      && ((had > 0 && more < 0) || (had < 0 && more > 0) ==> r == had + more)
      && (more == 0 ==> r == had)
      && (had == 0 ==> r == if more < 0 then more else 0)
  {
  }

  /** The position of the first affect at a location, or the number of affects. */
  function FirstAt(affs: seq<Affect>, location: int): (j: nat)
    ensures j <= |affs|
    ensures j < |affs| ==> affs[j].location == location
    ensures forall i | 0 <= i < j :: affs[i].location != location
  {
    if affs == [] || affs[0].location == location then 0 else 1 + FirstAt(affs[1..], location)
  }

  lemma FirstAtIs(affs: seq<Affect>, location: int, j: nat)
    requires j <= |affs| && (j < |affs| ==> affs[j].location == location)
    requires forall i | 0 <= i < j :: affs[i].location != location
    ensures FirstAt(affs, location) == j
  {
  }

  function Duration(level: nat, skill: nat): int {
    skill / 10 + level / 16
  }

  /** One slot merged into the affects. */
  function Merged(affs: seq<Affect>, slot: Slot, level: nat, skill: nat): seq<Affect> {
    var j := FirstAt(affs, slot.location);
    if slot.location == APPLY_NONE then affs
    else if j < |affs| then
      affs[j := affs[j].(modifier := Combined(affs[j].modifier, slot.modifier), level := level,
                         duration := Duration(level, skill))]
    else affs + [Affect(Assimilated, slot.location, slot.modifier, level, Duration(level, skill))]
  }

  function MergedAll(affs: seq<Affect>, slots: seq<Slot>, level: nat, skill: nat): seq<Affect> {
    if slots == [] then affs
    else Merged(MergedAll(affs, slots[..|slots| - 1], level, skill), slots[|slots| - 1], level, skill)
  }

  /** All affects of a cyborg after consuming an object with these slots. */
  function After(affs: seq<Affect>, slots: seq<Slot>, level: nat, skill: nat): seq<Affect> {
    PutOn(MergedAll(Own(affs), slots, level, skill), Others(affs))
  }

  /** Slot i is at a location for which there is no affect when its turn comes. */
  predicate IsNew(affs: seq<Affect>, slots: seq<Slot>, i: nat, level: nat, skill: nat)
    requires i < |slots|
  {
    slots[i].location != APPLY_NONE && At(MergedAll(affs, slots[..i], level, skill), slots[i].location) == None
  }

  // ---------- One affect for each location ----------

  predicate OneEach(affs: seq<Affect>) {
    forall i, j | 0 <= i < j < |affs| :: affs[i].location != affs[j].location
  }

  predicate AllOwn(affs: seq<Affect>) {
    forall i | 0 <= i < |affs| :: affs[i].kind == Assimilated
  }

  predicate Within(affs: seq<Affect>, b: nat) {
    forall i | 0 <= i < |affs| :: Abs(affs[i].modifier) <= b
  }

  predicate SlotsWithin(slots: seq<Slot>, b: nat) {
    forall i | 0 <= i < |slots| :: slots[i].location != APPLY_NONE ==> Abs(slots[i].modifier) <= b
  }

  /** The modifier at a location, if there is an affect there. */
  function At(affs: seq<Affect>, location: int): Option<int> {
    var j := FirstAt(affs, location);
    if j < |affs| then Some(affs[j].modifier) else None
  }

  /** What the slots at one location, taken in order, make of the modifier there. */
  function Folded(start: Option<int>, slots: seq<Slot>, location: int): Option<int> {
    if slots == [] then start
    else
      var before := Folded(start, slots[..|slots| - 1], location);
      var slot := slots[|slots| - 1];
      if slot.location != location then before
      else if before == None then Some(slot.modifier)
      else Some(Combined(before.value, slot.modifier))
  }

  lemma MergedOk(affs: seq<Affect>, slot: Slot, level: nat, skill: nat, b: nat)
    requires OneEach(affs) && AllOwn(affs) && Within(affs, b)
    requires slot.location != APPLY_NONE ==> Abs(slot.modifier) <= b
    ensures var r := Merged(affs, slot, level, skill); OneEach(r) && AllOwn(r) && Within(r, b)
  {
  }

  lemma MergedAt(affs: seq<Affect>, slot: Slot, level: nat, skill: nat, location: int)
    requires location != APPLY_NONE
    ensures At(Merged(affs, slot, level, skill), location) == Folded(At(affs, location), [slot], location)
  {
    var r := Merged(affs, slot, level, skill);
    var j := FirstAt(affs, location);
    assert [slot][..0] == [];
    if j < |affs| || slot.location != location {
      FirstAtIs(r, location, if j < |affs| then j else |r|);
    } else {
      FirstAtIs(r, location, |affs|);
    }
  }

  /** The affect at the slot's location gets the level of the merge and lasts a tenth of the skill and a
      sixteenth of the level; all others stay as they are. */
  lemma MergedElse(affs: seq<Affect>, slot: Slot, level: nat, skill: nat, i: nat)
    requires OneEach(affs) && slot.location != APPLY_NONE
    ensures var r := Merged(affs, slot, level, skill);
      && |r| == |affs| + (if At(affs, slot.location) == None then 1 else 0)
      && (i < |affs| && affs[i].location != slot.location ==> r[i] == affs[i])
      && (i < |r| && r[i].location == slot.location ==>
            r[i].level == level && r[i].duration == skill / 10 + level / 16)
      && (i == |affs| < |r| ==> r[i].kind == Assimilated && r[i].location == slot.location)
  {
  }

  lemma {:induction false} MergedAllOk(affs: seq<Affect>, slots: seq<Slot>, level: nat, skill: nat, b: nat)
    requires OneEach(affs) && AllOwn(affs) && Within(affs, b) && SlotsWithin(slots, b)
    ensures var r := MergedAll(affs, slots, level, skill); OneEach(r) && AllOwn(r) && Within(r, b)
    decreases |slots|
  {
    if slots != [] {
      MergedAllOk(affs, slots[..|slots| - 1], level, skill, b);
      MergedOk(MergedAll(affs, slots[..|slots| - 1], level, skill), slots[|slots| - 1], level, skill, b);
    }
  }

  lemma {:induction false} MergedAllAt(affs: seq<Affect>, slots: seq<Slot>, level: nat, skill: nat, location: int)
    requires location != APPLY_NONE
    ensures At(MergedAll(affs, slots, level, skill), location) == Folded(At(affs, location), slots, location)
    decreases |slots|
  {
    if slots != [] {
      var front, last := slots[..|slots| - 1], slots[|slots| - 1];
      MergedAllAt(affs, front, level, skill, location);
      MergedAt(MergedAll(affs, front, level, skill), last, level, skill, location);
      assert [last][..0] == [];
    }
  }

  // ---------- What is put on ----------

  predicate NonZero(affs: seq<Affect>) {
    forall i | 0 <= i < |affs| :: affs[i].modifier != 0
  }

  lemma {:induction false} PutOnOthers(affs: seq<Affect>, rest: seq<Affect>)
    requires AllOwn(affs)
    ensures Others(PutOn(affs, rest)) == Others(rest)
    decreases |affs|
  {
    if affs != [] {
      var more := if affs[0].modifier != 0 then [affs[0]] + rest else rest;
      assert more != rest ==> more[1..] == rest;
      PutOnOthers(affs[1..], more);
    }
  }

  lemma {:induction false} OthersAgain(affs: seq<Affect>)
    ensures Others(Others(affs)) == Others(affs) && Own(Others(affs)) == []
    decreases |affs|
  {
    if affs != [] {
      OthersAgain(affs[1..]);
    }
  }

  /** No affect of rest is at the location of one of affs. */
  predicate Disjoint(affs: seq<Affect>, rest: seq<Affect>) {
    forall i, j | 0 <= i < |affs| && 0 <= j < |rest| :: affs[i].location != rest[j].location
  }

  lemma {:induction false} PutOnOk(affs: seq<Affect>, rest: seq<Affect>, b: nat)
    requires AllOwn(affs) && OneEach(affs) && Within(affs, b)
    requires OneEach(Own(rest)) && NonZero(Own(rest)) && Within(Own(rest), b) && Disjoint(affs, Own(rest))
    ensures var r := Own(PutOn(affs, rest)); OneEach(r) && NonZero(r) && Within(r, b)
    decreases |affs|
  {
    if affs != [] {
      var more := if affs[0].modifier != 0 then [affs[0]] + rest else rest;
      assert more != rest ==> more[1..] == rest;
      PutOnOk(affs[1..], more, b);
    }
  }

  /** Zero is no affect. */
  function Effective(m: Option<int>): Option<int> {
    if m == Some(0) then None else m
  }

  lemma {:induction false} PutOnAt(affs: seq<Affect>, rest: seq<Affect>, location: int)
    requires AllOwn(affs) && OneEach(affs) && Disjoint(affs, Own(rest))
    ensures At(Own(PutOn(affs, rest)), location) ==
      if At(affs, location) == None then At(Own(rest), location) else Effective(At(affs, location))
    decreases |affs|
  {
    if affs != [] {
      var more := if affs[0].modifier != 0 then [affs[0]] + rest else rest;
      assert more != rest ==> more[1..] == rest;
      PutOnAt(affs[1..], more, location);
      if affs[0].location == location {
        FirstAtIs(affs[1..], location, |affs| - 1);
        FirstAtIs(Own(rest), location, |Own(rest)|);
      }
    }
  }

  lemma {:induction false} OwnIsOwn(affs: seq<Affect>)
    ensures AllOwn(Own(affs))
    decreases |affs|
  {
    if affs != [] {
      OwnIsOwn(affs[1..]);
    }
  }

  // ---------- Runs ----------

  /** At most one assimilated affect for each location, none of them zero, none beyond b. */
  predicate Ok(affs: seq<Affect>, b: nat) {
    OneEach(Own(affs)) && NonZero(Own(affs)) && Within(Own(affs), b)
  }

  /** Consuming an object leaves the other affects as they are, keeps one affect for each location within
      the bound, and makes of each modifier the fold over the slots at its location. */
  lemma AfterOk(affs: seq<Affect>, slots: seq<Slot>, level: nat, skill: nat, b: nat)
    requires Ok(affs, b) && SlotsWithin(slots, b)
    ensures var r := After(affs, slots, level, skill); Ok(r, b) && Others(r) == Others(affs)
    ensures forall location | location != APPLY_NONE ::
      At(Own(After(affs, slots, level, skill)), location) == Effective(Folded(At(Own(affs), location), slots, location))
  {
    var merged := MergedAll(Own(affs), slots, level, skill);
    OwnIsOwn(affs);
    MergedAllOk(Own(affs), slots, level, skill, b);
    OthersAgain(affs);
    PutOnOk(merged, Others(affs), b);
    PutOnOthers(merged, Others(affs));
    forall location | location != APPLY_NONE
      ensures At(Own(After(affs, slots, level, skill)), location) ==
        Effective(Folded(At(Own(affs), location), slots, location))
    {
      MergedAllAt(Own(affs), slots, level, skill, location);
      PutOnAt(merged, Others(affs), location);
    }
  }

  datatype Step = Consume(slots: seq<Slot>, level: nat, skill: nat) | Deassimilate

  function Apply(affs: seq<Affect>, step: Step): seq<Affect> {
    match step
    case Consume(slots, level, skill) => After(affs, slots, level, skill)
    case Deassimilate => Others(affs)
  }

  function Run(affs: seq<Affect>, steps: seq<Step>): seq<Affect>
    decreases |steps|
  {
    if steps == [] then affs else Run(Apply(affs, steps[0]), steps[1..])
  }

  /** No slot consumed in the run is larger than b. */
  predicate StepsWithin(steps: seq<Step>, b: nat) {
    forall i | 0 <= i < |steps| && steps[i].Consume? :: SlotsWithin(steps[i].slots, b)
  }

  /** The modifier at a location after a run: each object consumed folds its slots at the location into
      what is there, and deassimilating clears it. */
  function FoldRun(start: Option<int>, steps: seq<Step>, location: int): Option<int>
    decreases |steps|
  {
    if steps == [] then start
    else
      match steps[0]
      case Consume(slots, _, _) => FoldRun(Effective(Folded(start, slots, location)), steps[1..], location)
      case Deassimilate => FoldRun(None, steps[1..], location)
  }

  /** Over any run the assimilated affects stay one for each location and no larger than the largest slot
      consumed, and all others are untouched. */
  lemma {:induction false} RunOk(affs: seq<Affect>, steps: seq<Step>, b: nat)
    requires Ok(affs, b) && StepsWithin(steps, b)
    ensures Ok(Run(affs, steps), b) && Others(Run(affs, steps)) == Others(affs)
    ensures forall location | location != APPLY_NONE ::
      At(Own(Run(affs, steps)), location) == FoldRun(At(Own(affs), location), steps, location)
    decreases |steps|
  {
    if steps != [] {
      match steps[0] {
        case Consume(slots, level, skill) => AfterOk(affs, slots, level, skill, b);
        case Deassimilate => OthersAgain(affs);
      }
      RunOk(Apply(affs, steps[0]), steps[1..], b);
    }
  }

  /** Once slots have cancelled out, a positive one has no effect in the same object, but a negative one
      has: the merge is not symmetric. */
  lemma NotSymmetric(affs: seq<Affect>, level: nat, skill: nat)
    requires Own(affs) == []
    ensures At(Own(After(affs, [Slot(1, 3), Slot(1, -3), Slot(1, 5)], level, skill)), 1) == None
    ensures At(Own(After(affs, [Slot(1, 3), Slot(1, -3), Slot(1, -5)], level, skill)), 1) == Some(-5)
  {
    AfterOk(affs, [Slot(1, 3), Slot(1, -3), Slot(1, 5)], level, skill, 5);
    AfterOk(affs, [Slot(1, 3), Slot(1, -3), Slot(1, -5)], level, skill, 5);
    var s := [Slot(1, 3), Slot(1, -3)];
    assert [Slot(1, 3), Slot(1, -3), Slot(1, 5)][..2] == s && [Slot(1, 3), Slot(1, -3), Slot(1, -5)][..2] == s;
    assert s[..1] == [Slot(1, 3)] && [Slot(1, 3)][..0] == [];
    assert Folded(None, [Slot(1, 3)], 1) == Some(3);
    assert Folded(None, s, 1) == Some(0);
  }

  // ---------- The cyborg ----------

  class Cyborg {
    var affected: seq<Affect>
    var level: nat
    var remort: nat
    var skill: nat
    var mana: int
    var isCyborg: bool

    /** The level of a new affect, as the one byte that holds it. */
    function AffectLevel(): nat
      reads this
    {
      (level + remort * 4) % 256
    }

    /** Drops every affect that came from assimilating. */
    method AffectFromChar()
      modifies this`affected
      ensures affected == Others(old(affected))
    {
      var left: seq<Affect> := [];
      for i := |affected| downto 0
        invariant affected == old(affected) && left == Others(affected[i..])
      {
        assert affected[i..][1..] == affected[i + 1..];
        if affected[i].kind != Assimilated {
          left := [affected[i]] + left;
        }
      }
      assert affected[0..] == affected;
      affected := left;
    }

    method CopyOwn() returns (affs: seq<Affect>)
      ensures affs == Own(affected)
    {
      affs := [];
      for i := |affected| downto 0
        invariant affs == Own(affected[i..])
      {
        assert affected[i..][1..] == affected[i + 1..];
        if affected[i].kind == Assimilated {
          affs := [affected[i]] + affs;
        }
      }
      assert affected[0..] == affected;
    }

    /** Merges one slot; tells whether there was an affect at its location. */
    method MergeSlot(affs: seq<Affect>, slot: Slot) returns (r: seq<Affect>, found: bool)
      requires slot.location != APPLY_NONE
      ensures r == Merged(affs, slot, AffectLevel(), skill)
      ensures found <==> At(affs, slot.location) != None
    {
      r, found := affs, false;
      var j := 0;
      while j < |affs| && affs[j].location != slot.location
        invariant j <= |affs| && forall i | 0 <= i < j :: affs[i].location != slot.location
      {
        j := j + 1;
      }
      FirstAtIs(affs, slot.location, j);
      var duration := skill / 10 + AffectLevel() / 16;
      if j < |affs| {
        var sum, m := affs[j].modifier, slot.modifier;
        if (sum > 0 && m < 0) || (sum < 0 && m > 0) {
          sum := sum + m;
        } else if sum > 0 {
          sum := Max(sum, m);
        } else {
          sum := Min(sum, m);
        }
        r := r[j := r[j].(modifier := sum, level := AffectLevel(), duration := duration)];
        found := true;
      } else {
        r := r + [Affect(Assimilated, slot.location, slot.modifier, AffectLevel(), duration)];
      }
    }

    method StickOn(affs: seq<Affect>)
      modifies this`affected
      ensures affected == PutOn(affs, old(affected))
    {
      assert affs[0..] == affs;
      for i := 0 to |affs|
        invariant PutOn(affs[i..], affected) == PutOn(affs, old(affected))
      {
        assert affs[i..][1..] == affs[i + 1..];
        if affs[i].modifier != 0 {
          affected := [affs[i]] + affected;
        }
      }
    }

    method MergeSlots(own: seq<Affect>, slots: seq<Slot>) returns (affs: seq<Affect>, added: bool)
      ensures affs == MergedAll(own, slots, AffectLevel(), skill)
      ensures added <==> exists i :: 0 <= i < |slots| && IsNew(own, slots, i, AffectLevel(), skill)
    {
      affs, added := own, false;
      assert slots[..0] == [];
      for i := 0 to |slots|
        invariant affs == MergedAll(own, slots[..i], AffectLevel(), skill)
        invariant added <==> exists k :: 0 <= k < i && IsNew(own, slots, k, AffectLevel(), skill)
      {
        assert slots[..i + 1][..i] == slots[..i];
        ghost var brings := IsNew(own, slots, i, AffectLevel(), skill);
        if slots[i].location != APPLY_NONE {
          var found;
          affs, found := MergeSlot(affs, slots[i]);
          added := added || !found;
          assert brings == !found;
        }
      }
      assert slots[..|slots|] == slots;
    }

    /** Consumes an object; tells whether some slot brought a location that had no affect. */
    method PerformAssimilate(slots: seq<Slot>) returns (added: bool)
      modifies this`affected
      ensures affected == After(old(affected), slots, AffectLevel(), skill)
      ensures added <==> exists i :: 0 <= i < |slots| && IsNew(Own(old(affected)), slots, i, AffectLevel(), skill)
    {
      var own := CopyOwn();
      AffectFromChar();
      var affs;
      affs, added := MergeSlots(own, slots);
      StickOn(affs);
    }

    /** Drops what was assimilated, for 10 mana; tells whether it did. */
    method DoDeassimilate() returns (done: bool)
      modifies this`affected, this`mana
      ensures done <==> isCyborg && skill >= 60 && old(mana) >= 10 && Own(old(affected)) != []
      ensures affected == (if done then Others(old(affected)) else old(affected))
      ensures mana == old(mana) - (if done then 10 else 0)
    {
      if !isCyborg || skill < 60 {
        return false;
      }
      var own := CopyOwn();
      if own == [] || mana < 10 {
        return false;
      }
      AffectFromChar();
      mana := mana - 10;
      return true;
    }
  }
}
