/** Recharging: energy goes from a battery or from the one who recharges to a creature or an engine. Any of
    these may be one and the same. */
module Recharging {
  import opened Text
  import opened Numbers

  class Creature {
    var move: int
    var maxMove: int
    var cash: int
    const level: nat
    const remort: nat

    predicate InRange()
      reads this
    {
      0 <= move <= maxMove && cash >= 0
    }
  }

  /** An object that holds energy: a battery, a device or an engine. */
  class Cell {
    var cur: int
    const max: int
    const rate: int
    const cost: int
    const isBattery: bool

    predicate InRange()
      reads this
    {
      0 <= cur <= max && cost >= 0
    }
  }

  /** What is transferred, if anybody names an amount or leaves it at 0, before any target is looked at. */
  function Asked(amount: int, ch: Creature, battery: Cell?): int {
    if amount != 0 then amount
    else if battery != null then battery.rate
    else ch.level + ch.remort * 8
  }

  function Stored(ch: Creature, battery: Cell?): int
    reads ch, battery
  {
    if battery != null then battery.cur else ch.move
  }

  function Room(vict: Creature?, engine: Cell?): int
    requires vict != null || engine != null
    reads vict, engine
  {
    if vict != null then vict.maxMove - vict.move else engine.max - engine.cur
  }

  /** What a unit of energy costs; 0 if the source is not sold. */
  function UnitCost(battery: Cell?): int {
    if battery != null && battery.isBattery then battery.cost else 0
  }

  /** How much of n the cash pays for. */
  function Payable(n: int, cost: int, cash: int): int
    requires cost >= 0 && cash >= 0
  {
    if cost > 0 && cost * n > cash then cash / cost else n
  }

  lemma Scale(a: int, b: int, c: int)
    requires a <= b && c >= 0
    ensures a * c <= b * c
  {
  }

  lemma PayableIs(n: int, cost: int, cash: int)
    requires cost >= 0 && cash >= 0
    ensures var r := Payable(n, cost, cash);
      && r <= n && (n >= 0 ==> r >= 0) && r * cost <= cash
      && (r == n || (r + 1) * cost > cash)
  {
    if cost > 0 && cost * n > cash {
      var r := cash / cost;
      assert r * cost <= cash < (r + 1) * cost;
      if r > n {
        Scale(n, r, cost);
      }
    } else if cost == 0 {
      assert n * cost == 0;
    }
  }

  /** The amount after the battery's charge and the cash are seen to; none if the cash buys nothing. */
  method FromSource(ch: Creature, battery: Cell?, amount: int) returns (r: Option<int>)
    requires ch.InRange() && (battery != null ==> battery.InRange())
    ensures var n := Min(Asked(amount, ch, battery), Stored(ch, battery));
      var payable := Payable(n, UnitCost(battery), ch.cash);
      r == if payable == 0 && n > 0 then None else Some(payable)
  {
    var n := amount;
    if battery != null {
      if n == 0 {
        n := battery.rate;
      }
      if battery.cur - n < 0 {
        n := battery.cur;
      }
      assert battery.cost == 0 ==> battery.cost * n == 0;
      if battery.isBattery && battery.cost * n > ch.cash {
        NothingFree(battery.cost, n);
        n := ch.cash / battery.cost;
        if n == 0 {
          return None;
        }
      }
    } else {
      n := if n == 0 then Min(ch.level + ch.remort * 8, ch.move) else Min(n, ch.move);
    }
    return Some(n);
  }

  lemma NothingFree(cost: int, n: int)
    requires cost > 0
    ensures cost * n > 0 ==> n > 0
  {
  }

  /** The energy of the target. */
  function Level(vict: Creature?, engine: Cell?): int
    requires vict != null || engine != null
    reads vict, engine
  {
    if vict != null then vict.move else engine.cur
  }

  /** Source and target are one and the same. */
  predicate SameStore(ch: Creature, battery: Cell?, vict: Creature?, engine: Cell?) {
    if battery == null then vict == ch else vict == null && battery == engine
  }

  predicate AllInRange(ch: Creature, battery: Cell?, vict: Creature?, engine: Cell?)
    reads ch, battery, vict, engine
  {
    && ch.InRange() && (battery != null ==> battery.InRange())
    && (vict != null ==> vict.InRange()) && (engine != null ==> engine.InRange())
  }

  /** What an order for an amount comes to: as much as is asked for, stored, paid for and room for. */
  function Transfer(ch: Creature, battery: Cell?, vict: Creature?, engine: Cell?, amount: int): Option<int>
    requires AllInRange(ch, battery, vict, engine)
    reads ch, battery, vict, engine
  {
    var n := Min(Asked(amount, ch, battery), Stored(ch, battery));
    var payable := Payable(n, UnitCost(battery), ch.cash);
    if (vict == null && engine == null) || (payable == 0 && n > 0) then None
    else Some(Min(payable, Room(vict, engine)))
  }

  /** Nothing less can be named: one of the four limits is reached. */
  lemma TransferIs(ch: Creature, battery: Cell?, vict: Creature?, engine: Cell?, amount: int)
    requires AllInRange(ch, battery, vict, engine)
    ensures var r, cost := Transfer(ch, battery, vict, engine, amount), UnitCost(battery);
      r.Some? ==>
        var a := r.value;
        && a <= Asked(amount, ch, battery) && a <= Stored(ch, battery) && a <= Room(vict, engine) && a * cost <= ch.cash
        && (a == Asked(amount, ch, battery) || a == Stored(ch, battery) || a == Room(vict, engine)
            || (a + 1) * cost > ch.cash)
        && (a >= 0 <==> Asked(amount, ch, battery) >= 0)
  {
    var cost := UnitCost(battery);
    var n := Min(Asked(amount, ch, battery), Stored(ch, battery));
    PayableIs(n, cost, ch.cash);
    if vict != null || engine != null {
      Scale(Min(Payable(n, cost, ch.cash), Room(vict, engine)), Payable(n, cost, ch.cash), cost);
    }
  }

  lemma NotPayable(n: int, cost: int, cash: int)
    requires cost >= 0 && cash >= 0 && n > 0
    ensures Payable(n, cost, cash) == 0 <==> cost > cash
  {
    PayableIs(n, cost, cash);
    if cost > cash {
      Scale(1, n, cost);
    } else if cost > 0 {
      assert cash / cost >= 1;
    }
  }

  /** An order is refused exactly when there is nothing to recharge, or the source is a battery for sale that
      has something of what is asked for and the cash does not pay for one unit. */
  lemma TransferRefused(ch: Creature, battery: Cell?, vict: Creature?, engine: Cell?, amount: int)
    requires AllInRange(ch, battery, vict, engine)
    ensures Transfer(ch, battery, vict, engine, amount) == None <==>
      || (vict == null && engine == null)
      || (battery != null && battery.isBattery && ch.cash < battery.cost && battery.cur > 0
          && (if amount != 0 then amount else battery.rate) > 0)
  {
    var n := Min(Asked(amount, ch, battery), Stored(ch, battery));
    if n > 0 {
      NotPayable(n, UnitCost(battery), ch.cash);
    }
  }

  /** What is asked for is what is transferred if it is there, paid for and fits: the amount named or else the
      rate of the battery or, without one, a point for each level and eight for each remort. */
  lemma TransferFull(ch: Creature, battery: Cell?, vict: Creature?, engine: Cell?, amount: int, a: int)
    requires AllInRange(ch, battery, vict, engine) && (vict != null || engine != null)
    requires if amount != 0 then a == amount
      else if battery != null then a == battery.rate
      else a == ch.level + ch.remort * 8
    requires a <= Stored(ch, battery) && a <= Room(vict, engine) && a * UnitCost(battery) <= ch.cash
    ensures Transfer(ch, battery, vict, engine, amount) == Some(a)
  {
    TransferRefused(ch, battery, vict, engine, amount);
    if a > 0 {
      Scale(1, a, UnitCost(battery));
    }
  }

  /** Moves the energy: what the source loses the target gains, and if they are the same nothing changes. */
  method Move(ch: Creature, battery: Cell?, vict: Creature?, engine: Cell?, a: int)
    requires AllInRange(ch, battery, vict, engine) && (vict != null || engine != null)
    requires a <= Stored(ch, battery) && a <= Room(vict, engine)
    modifies ch, battery, vict, engine
    ensures Stored(ch, battery) == old(Stored(ch, battery)) - if SameStore(ch, battery, vict, engine) then 0 else a
    ensures Level(vict, engine) == old(Level(vict, engine)) + if SameStore(ch, battery, vict, engine) then 0 else a
    ensures battery != null && vict != ch ==> ch.move == old(ch.move)
    ensures vict != null && engine != null && engine != battery ==> engine.cur == old(engine.cur)
    ensures ch.cash == old(ch.cash) && ch.maxMove == old(ch.maxMove)
    ensures vict != null ==> vict.cash == old(vict.cash) && vict.maxMove == old(vict.maxMove)
  {
    if vict != null {
      vict.move := Min(vict.maxMove, vict.move + a);
    } else {
      engine.cur := Min(engine.max, engine.cur + a);
    }
    if battery != null {
      battery.cur := Max(0, battery.cur - a);
    } else {
      ch.move := ch.move - a;
    }
  }

  /** Moves the energy and takes the cash for it. */
  method MoveAndPay(ch: Creature, battery: Cell?, vict: Creature?, engine: Cell?, a: int)
    requires AllInRange(ch, battery, vict, engine) && (vict != null || engine != null)
    requires a <= Stored(ch, battery) && a <= Room(vict, engine) && a * UnitCost(battery) <= ch.cash
    modifies ch, battery, vict, engine
    ensures Stored(ch, battery) == old(Stored(ch, battery)) - if SameStore(ch, battery, vict, engine) then 0 else a
    ensures Level(vict, engine) == old(Level(vict, engine)) + if SameStore(ch, battery, vict, engine) then 0 else a
    ensures battery != null && vict != ch ==> ch.move == old(ch.move)
    ensures vict != null && engine != null && engine != battery ==> engine.cur == old(engine.cur)
    ensures ch.cash == old(ch.cash) - a * UnitCost(battery) && ch.maxMove == old(ch.maxMove)
    ensures vict != null ==> vict.maxMove == old(vict.maxMove) && (vict != ch ==> vict.cash == old(vict.cash))
  {
    Move(ch, battery, vict, engine, a);
    if battery != null && battery.isBattery && battery.cost != 0 {
      ch.cash := ch.cash - a * battery.cost;
    } else {
      assert a * UnitCost(battery) == 0;
    }
  }

  /** Recharges for an amount, and charges for it. Energy is conserved; it and the cash stay in range as
      long as what is asked for, by name or as the battery's rate, is not negative. */
  method PerformRecharge(ch: Creature, battery: Cell?, vict: Creature?, engine: Cell?, amount: int)
      returns (r: Option<int>)
    requires AllInRange(ch, battery, vict, engine)
    modifies ch, battery, vict, engine
    ensures r == old(Transfer(ch, battery, vict, engine, amount))
    ensures r.None? ==> ch.move == old(ch.move) && ch.cash == old(ch.cash)
    ensures r.None? ==> Stored(ch, battery) == old(Stored(ch, battery))
    ensures r.None? && (vict != null || engine != null) ==> Level(vict, engine) == old(Level(vict, engine))
    ensures r.Some? && SameStore(ch, battery, vict, engine) ==>
      Stored(ch, battery) == old(Stored(ch, battery)) == Level(vict, engine)
    ensures r.Some? && !SameStore(ch, battery, vict, engine) ==>
      && Stored(ch, battery) == old(Stored(ch, battery)) - r.value
      && Level(vict, engine) == old(Level(vict, engine)) + r.value
    ensures battery != null && vict != ch ==> ch.move == old(ch.move)
    ensures vict != null && engine != null && engine != battery ==> engine.cur == old(engine.cur)
    ensures r.Some? ==> ch.cash == old(ch.cash) - r.value * UnitCost(battery) && ch.cash >= 0
    ensures ch.maxMove == old(ch.maxMove)
    ensures vict != null ==> vict.maxMove == old(vict.maxMove) && (vict != ch ==> vict.cash == old(vict.cash))
    ensures Asked(amount, ch, battery) >= 0 ==> AllInRange(ch, battery, vict, engine)
  {
    TransferIs(ch, battery, vict, engine, amount);
    r := FromSource(ch, battery, amount);
    if r.None? || (engine == null && vict == null) {
      return None;
    }
    var a := r.value;
    if vict != null {
      if vict.move + a > vict.maxMove {
        a := vict.maxMove - vict.move;
      }
    } else if engine.cur + a > engine.max {
      a := engine.max - engine.cur;
    }
    r := Some(a);
    MoveAndPay(ch, battery, vict, engine, a);
  }
}
