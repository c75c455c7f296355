/** Soiling a character: a place of the body, given or picked at random, or what is worn there. */
module Soiling {
  import opened Chance

  const NUM_WEARS := 27
  const WEAR_RANDOM := 28
  const BLOOD_VNUM := 21

  datatype Soil = Soil(bit: nat)

  const BLOOD := Soil(1)

  /** Light, neck 2, shield, about, wield, hold, belt, second wield and rear. */
  predicate IllegalPos(pos: nat) {
    pos == 0 || pos == 4 || pos == 11 || pos == 12 || pos == 16 || pos == 17 || pos == 21 || pos == 25 || pos == 26
  }

  /** Where a soil can be: on the skin at a position, or on what is worn there. */
  datatype Place = Skin(pos: nat) | Worn(pos: nat)

  /** What is left of a pool of blood that something was soiled from. */
  function Dried(timer: int): int {
    if timer - 5 > 1 then timer - 5 else 1
  }

  class Item {
    const vnum: int
    const noSoil: bool
    var soils: set<Soil>
    var timer: int
  }

  class Creature {
    const eq: array<Item?>
    const soils: array<set<Soil>>

    ghost predicate Valid()
      reads eq
    {
      && eq.Length == soils.Length == NUM_WEARS
      && (forall i, j | 0 <= i < j < NUM_WEARS :: eq[i] != null ==> eq[i] != eq[j])
    }

    ghost function Items(): set<object>
      reads eq
    {
      set i | 0 <= i < eq.Length && eq[i] != null :: eq[i]
    }

    /** The soil can be put at the position. */
    predicate Soilable(pos: nat, soil: Soil)
      requires eq.Length == soils.Length == NUM_WEARS && pos < NUM_WEARS
      reads eq, soils, eq[pos]
    {
      && !IllegalPos(pos)
      && (eq[pos] == null ==> soil !in soils[pos])
      && (eq[pos] != null ==> soil !in eq[pos].soils && !eq[pos].noSoil)
    }

    ghost function SoilableAt(soil: Soil): (ok: seq<bool>)
      requires Valid()
      reads eq, soils, Items()
    {
      seq(NUM_WEARS, i requires 0 <= i < NUM_WEARS reads eq, soils, Items() => Soilable(i, soil))
    }

    /** The places that have a soil. */
    ghost predicate Soiled(p: Place, soil: Soil)
      requires Valid()
      reads eq, soils, Items()
    {
      && p.pos < NUM_WEARS
      && match p
         case Skin(i) => soil in soils[i]
         case Worn(i) => eq[i] != null && soil in eq[i].soils
    }

    /** Picks a position that can be soiled, each with the same chance. */
    method PickPos(soil: Soil, draws: seq<nat>) returns (pos: nat, cnt: nat)
      requires Valid() && Admits(Reservoir(SoilableAt(soil), 0, 0, WEAR_RANDOM), draws)
      ensures pos == Follow(Reservoir(old(SoilableAt(soil)), 0, 0, WEAR_RANDOM), draws)
      ensures cnt == Count(old(SoilableAt(soil)), 0)
      ensures cnt > 0 ==> pos < NUM_WEARS && Soilable(pos, soil)
    {
      ghost var ok := SoilableAt(soil);
      ghost var all := Reservoir(ok, 0, 0, WEAR_RANDOM);
      var used := 0;
      pos, cnt := WEAR_RANDOM, 0;
      assert draws[0..] == draws;
      for idx := 0 to NUM_WEARS
        invariant used <= |draws|
        invariant cnt + Count(ok, idx) == Count(ok, 0)
        invariant cnt > 0 ==> pos < NUM_WEARS && Soilable(pos, soil)
        invariant Admits(Reservoir(ok, idx, cnt, pos), draws[used..])
        invariant Follow(Reservoir(ok, idx, cnt, pos), draws[used..]) == Follow(all, draws)
      {
        assert ok[idx] == Soilable(idx, soil);
        if IllegalPos(idx) {
          continue;
        }
        if eq[idx] == null && soil in soils[idx] {
          continue;
        }
        if eq[idx] != null && (soil in eq[idx].soils || eq[idx].noSoil) {
          continue;
        }
        FollowZeroOr(cnt + 1, Reservoir(ok, idx + 1, cnt + 1, idx), Reservoir(ok, idx + 1, cnt + 1, pos),
            draws[used..]);
        assert draws[used..][1..] == draws[used + 1..];
        if draws[used] == 0 {
          pos := idx;
        }
        used := used + 1;
        cnt := cnt + 1;
      }
    }

    /** The place that a soil goes to at a position, if it is put there for obj or for none in particular. */
    function Target(obj: Item?, pos: nat): Place
      requires eq.Length == NUM_WEARS && pos < NUM_WEARS
      reads eq
    {
      if eq[pos] != null && (eq[pos] == obj || obj == null) then Worn(pos) else Skin(pos)
    }

    /** The position will not take the soil. */
    ghost predicate Refuses(obj: Item?, soil: Soil, pos: nat)
      requires Valid() && pos < NUM_WEARS
      reads eq, soils, Items()
    {
      || IllegalPos(pos)
      || Soiled(Target(obj, pos), soil)
      || (Target(obj, pos).Worn? && eq[pos].noSoil)
    }

    /** Puts a soil at a position: on just the one place that it is meant for, which lacked it. */
    method ApplyAt(obj: Item?, soil: Soil, pos: nat) returns (r: nat)
      requires Valid() && pos < NUM_WEARS
      modifies soils, Items(), obj
      ensures Valid()
      ensures r == if old(Refuses(obj, soil, pos)) then 0 else pos
      ensures forall p, s :: Soiled(p, s) <==> old(Soiled(p, s)) || (r != 0 && s == soil && p == old(Target(obj, pos)))
      ensures r != 0 && eq[pos] != null && (obj == null || obj == eq[pos]) ==> Soiled(Worn(pos), soil)
      ensures r != 0 && (eq[pos] == null || (obj != null && obj != eq[pos])) ==> Soiled(Skin(pos), soil)
      ensures obj != null ==>
        obj.timer == if r != 0 && soil == BLOOD && obj.vnum == BLOOD_VNUM then Dried(old(obj.timer)) else old(obj.timer)
    {
      if IllegalPos(pos) {
        return 0;
      }
      var worn := eq[pos];
      if worn != null && (worn == obj || obj == null) {
        if worn.noSoil || soil in worn.soils {
          return 0;
        }
        worn.soils := worn.soils + {soil};
      } else if soil in soils[pos] {
        return 0;
      } else {
        soils[pos] := soils[pos] + {soil};
      }
      if soil == BLOOD && obj != null && obj.vnum == BLOOD_VNUM {
        obj.timer := Dried(obj.timer);
      }
      r := pos;
    }

    /** Soils a given or, if pos is WEAR_RANDOM, a random position. */
    method Apply(obj: Item?, soil: Soil, pos: nat, draws: seq<nat>) returns (r: nat)
      requires Valid() && (pos < NUM_WEARS || pos == WEAR_RANDOM)
      requires pos == WEAR_RANDOM ==> Admits(Reservoir(SoilableAt(soil), 0, 0, WEAR_RANDOM), draws)
      modifies soils, Items(), obj
      ensures Valid()
      ensures r == 0 ==> forall p, s :: Soiled(p, s) <==> old(Soiled(p, s))
      ensures r != 0 ==> r < NUM_WEARS && !old(Soiled(Target(obj, r), soil))
      ensures r != 0 ==> forall p, s :: Soiled(p, s) <==> old(Soiled(p, s)) || (s == soil && p == old(Target(obj, r)))
      ensures pos < NUM_WEARS ==> r == if old(Refuses(obj, soil, pos)) then 0 else pos
      ensures pos == WEAR_RANDOM && Count(old(SoilableAt(soil)), 0) == 0 ==> r == 0
      ensures pos == WEAR_RANDOM && Count(old(SoilableAt(soil)), 0) > 0 ==>
        var picked := Follow(Reservoir(old(SoilableAt(soil)), 0, 0, WEAR_RANDOM), draws);
        && picked < NUM_WEARS && old(Soilable(picked, soil))
        && r == if old(Refuses(obj, soil, picked)) then 0 else picked
      ensures pos == WEAR_RANDOM && obj == null ==> (r == 0 <==> Count(old(SoilableAt(soil)), 0) == 0)
    {
      var at := pos;
      if pos == WEAR_RANDOM {
        var cnt;
        at, cnt := PickPos(soil, draws);
        if cnt == 0 {
          return 0;
        }
      }
      r := ApplyAt(obj, soil, at);
    }
  }
}
