/** Random choices: programs that draw numbers, the chance of each outcome, and the two ways in which the
    game picks one of several. */
module Chance {
  import opened Text

  /** What a program yields, or how it goes on for each value of its next draw, all equally likely. */
  datatype Dist<T> = Return(value: T) | Draw(kids: seq<Dist<T>>)

  function Prob<T(==)>(d: Dist<T>, x: T): real {
    match d
    case Return(v) => if v == x then 1.0 else 0.0
    case Draw(kids) => if kids == [] then 0.0 else Total(kids, x) / (|kids| as real)
  }

  function Total<T(==)>(kids: seq<Dist<T>>, x: T): real {
    if kids == [] then 0.0 else Prob(kids[0], x) + Total(kids[1..], x)
  }

  /** The draws are in the ranges that the program asks for. */
  predicate Admits<T>(d: Dist<T>, draws: seq<nat>) {
    match d
    case Return(_) => true
    case Draw(kids) => draws != [] && draws[0] < |kids| && Admits(kids[draws[0]], draws[1..])
  }

  /** What the program yields with these draws. */
  function Follow<T>(d: Dist<T>, draws: seq<nat>): T
    requires Admits(d, draws)
  {
    match d
    case Return(v) => v
    case Draw(kids) => Follow(kids[draws[0]], draws[1..])
  }

  /** A draw from 0..n-1 in which only 0 is special. */
  function ZeroOr<T>(n: nat, zero: Dist<T>, other: Dist<T>): Dist<T> {
    Draw(seq(n, v => if v == 0 then zero else other))
  }

  lemma FollowZeroOr<T>(n: nat, zero: Dist<T>, other: Dist<T>, draws: seq<nat>)
    requires Admits(ZeroOr(n, zero, other), draws)
    ensures draws != [] && Admits(if draws[0] == 0 then zero else other, draws[1..])
    ensures Follow(ZeroOr(n, zero, other), draws) == Follow(if draws[0] == 0 then zero else other, draws[1..])
  {
  }

  function Copies<T>(n: nat, x: T): seq<T> {
    seq(n, v => x)
  }

  function Times(n: nat, p: real): real {
    n as real * p
  }

  lemma {:induction false} TotalSame<T>(n: nat, d: Dist<T>, x: T)
    ensures Total(Copies(n, d), x) == Times(n, Prob(d, x))
    decreases n
  {
    if n > 0 {
      assert Copies(n, d)[1..] == Copies(n - 1, d);
      TotalSame(n - 1, d, x);
    }
  }

  lemma ZeroOrProb<T>(n: nat, zero: Dist<T>, other: Dist<T>, x: T)
    requires n > 0
    ensures Prob(ZeroOr(n, zero, other), x) * n as real == Prob(zero, x) + (n - 1) as real * Prob(other, x)
  {
    ZeroOrTotal(n, zero, other, x);
    var kids := seq(n, v => if v == 0 then zero else other);
    Divided(Total(kids, x), n as real);
  }

  lemma TimesReal(n: nat, m: real, p: real)
    requires n > 0 && m == n as real
    ensures Times(n - 1, p) == (m - 1.0) * p
  {
  }

  /** The same with the chances by name. */
  lemma ZeroOrShare<T>(n: nat, m: real, zero: Dist<T>, other: Dist<T>, x: T, now: real, later: real) returns (p: real)
    requires n > 0 && m == n as real && now == Prob(zero, x) && later == Prob(other, x)
    ensures p == Prob(ZeroOr(n, zero, other), x) && p * m == now + (m - 1.0) * later
  {
    ZeroOrTotal(n, zero, other, x);
    TimesReal(n, m, later);
    var total := Total(seq(n, v => if v == 0 then zero else other), x);
    p := total / m;
    Divided(total, m);
  }

  lemma ZeroOrTotal<T>(n: nat, zero: Dist<T>, other: Dist<T>, x: T)
    requires n > 0
    ensures Total(seq(n, v => if v == 0 then zero else other), x) == Prob(zero, x) + Times(n - 1, Prob(other, x))
  {
    var kids := seq(n, v => if v == 0 then zero else other);
    assert kids[0] == zero && kids[1..] == Copies(n - 1, other);
    TotalSame(n - 1, other, x);
  }

  lemma Divided(a: real, n: real)
    requires n != 0.0
    ensures a / n * n == a
  {
  }

  /** From what a product is to what a factor is. */
  lemma Quotient(p: real, n: real, q: real)
    requires n > 0.0 && p * n == q
    ensures p == q / n
  {
  }

  // ---------- Picking in two passes ----------

  /** How many of ok[i..] are eligible. */
  function Count(ok: seq<bool>, i: nat): (n: nat)
    requires i <= |ok|
    ensures (exists j :: i <= j < |ok| && ok[j]) <==> n > 0
    decreases |ok| - i
  {
    if i == |ok| then 0 else (if ok[i] then 1 else 0) + Count(ok, i + 1)
  }

  /** The second pass from i on, with n eligible ones counted and not passed over yet. */
  function Countdown(ok: seq<bool>, i: nat, n: nat): Dist<Option<nat>>
    requires i <= |ok| && n == Count(ok, i)
    decreases |ok| - i
  {
    if i == |ok| then Return(None)
    else if !ok[i] then Countdown(ok, i + 1, n)
    else ZeroOr(n, Return(Some(i)), Countdown(ok, i + 1, n - 1))
  }

  /** The chance of x when n are eligible from i on: the same for each, and no result only if there is none. */
  function EvenChance(ok: seq<bool>, i: nat, n: real, x: Option<nat>): real {
    if n == 0.0 then (if x == None then 1.0 else 0.0)
    else if x.Some? && i <= x.value < |ok| && ok[x.value] then 1.0 / n
    else 0.0
  }

  /** One chance in n now, or the same chance later. */
  lemma CountdownStep(n: real, p: real, now: real, later: real)
    requires n > 0.0 && p * n == now + (n - 1.0) * later
    ensures now == 1.0 && (n == 1.0 || later == 0.0) ==> p == 1.0 / n
    ensures now == 0.0 && n != 1.0 && later == 1.0 / (n - 1.0) ==> p == 1.0 / n
    ensures now == 0.0 && (n == 1.0 || later == 0.0) ==> p == 0.0
  {
    if now == 0.0 && n != 1.0 && later == 1.0 / (n - 1.0) {
      Divided(1.0, n - 1.0);
      Quotient(p, n, 1.0);
    } else if n == 1.0 || later == 0.0 {
      Quotient(p, n, now);
    }
  }

  lemma EvenStep(ok: seq<bool>, i: nat, n: real, x: Option<nat>, p: real)
    requires i < |ok| && ok[i] && n >= 1.0
    requires n == 1.0 ==> forall j | i < j < |ok| :: !ok[j]
    requires p * n == (if x == Some(i) then 1.0 else 0.0) + (n - 1.0) * EvenChance(ok, i + 1, n - 1.0, x)
    ensures p == EvenChance(ok, i, n, x)
  {
    CountdownStep(n, p, if x == Some(i) then 1.0 else 0.0, EvenChance(ok, i + 1, n - 1.0, x));
  }

  lemma EvenDraw(ok: seq<bool>, i: nat, n: nat, m: real, x: Option<nat>)
    requires i < |ok| && ok[i] && n == Count(ok, i) && m == n as real
    requires Prob(Countdown(ok, i + 1, n - 1), x) == EvenChance(ok, i + 1, m - 1.0, x)
    ensures Prob(Countdown(ok, i, n), x) == EvenChance(ok, i, m, x)
  {
    var p := CountdownProb(ok, i, n, m, x, EvenChance(ok, i + 1, m - 1.0, x));
    NoneBehind(ok, i);
    EvenStep(ok, i, m, x, p);
  }

  lemma CountdownProb(ok: seq<bool>, i: nat, n: nat, m: real, x: Option<nat>, later: real) returns (p: real)
    requires i < |ok| && ok[i] && n == Count(ok, i) && m == n as real
    requires Prob(Countdown(ok, i + 1, n - 1), x) == later
    ensures p == Prob(Countdown(ok, i, n), x)
    ensures p * m == (if x == Some(i) then 1.0 else 0.0) + (m - 1.0) * later
  {
    p := ZeroOrShare(n, m, Return(Some(i)), Countdown(ok, i + 1, n - 1), x, if x == Some(i) then 1.0 else 0.0, later);
  }

  lemma NoneBehind(ok: seq<bool>, i: nat)
    requires i < |ok| && ok[i]
    ensures Count(ok, i) == 1 ==> forall j | i < j < |ok| :: !ok[j]
  {
  }

  lemma {:induction false} CountdownEven(ok: seq<bool>, i: nat, n: nat, m: real, x: Option<nat>)
    requires i <= |ok| && n == Count(ok, i) && m == n as real
    ensures Prob(Countdown(ok, i, n), x) == EvenChance(ok, i, m, x)
    decreases |ok| - i
  {
    if i < |ok| {
      if !ok[i] {
        CountdownEven(ok, i + 1, n, m, x);
      } else {
        CountdownEven(ok, i + 1, n - 1, m - 1.0, x);
        EvenDraw(ok, i, n, m, x);
      }
    }
  }

  /** Of n eligible ones each has the chance 1/n, and there is no result only if there is none. */
  lemma CountdownFair(ok: seq<bool>, x: Option<nat>)
    ensures var n := Count(ok, 0);
      Prob(Countdown(ok, 0, n), x) ==
        if n == 0 then (if x == None then 1.0 else 0.0)
        else if x.Some? && x.value < |ok| && ok[x.value] then 1.0 / n as real
        else 0.0
  {
    CountdownEven(ok, 0, Count(ok, 0), Count(ok, 0) as real, x);
  }

  /** Picks an eligible room or zone: counts them, then takes each with one chance in those left. */
  method PickInTwoPasses(ok: seq<bool>, draws: seq<nat>) returns (r: Option<nat>)
    requires Admits(Countdown(ok, 0, Count(ok, 0)), draws)
    ensures r == Follow(Countdown(ok, 0, Count(ok, 0)), draws)
    ensures r.Some? <==> exists i :: 0 <= i < |ok| && ok[i]
    ensures r.Some? ==> r.value < |ok| && ok[r.value]
  {
    var n := 0;
    for i := 0 to |ok|
      invariant n + Count(ok, i) == Count(ok, 0)
    {
      if ok[i] {
        n := n + 1;
      }
    }
    var used := 0;
    ghost var all := Countdown(ok, 0, n);
    assert draws[0..] == draws;
    for i := 0 to |ok|
      invariant n == Count(ok, i) && used <= |draws|
      invariant (n > 0 <==> Count(ok, 0) > 0)
      invariant Admits(Countdown(ok, i, n), draws[used..])
      invariant Follow(Countdown(ok, i, n), draws[used..]) == Follow(all, draws)
    {
      if ok[i] {
        n := n - 1;
        var roll := draws[used];
        assert draws[used..][1..] == draws[used + 1..];
        used := used + 1;
        if roll == 0 {
          return Some(i);
        }
      }
    }
    return None;
  }

  // ---------- Picking in one pass ----------

  /** One pass from i on: cnt eligible ones seen, pos the choice so far. */
  function Reservoir(ok: seq<bool>, i: nat, cnt: nat, pos: nat): Dist<nat>
    requires i <= |ok|
    decreases |ok| - i
  {
    if i == |ok| then Return(pos)
    else if !ok[i] then Reservoir(ok, i + 1, cnt, pos)
    else ZeroOr(cnt + 1, Reservoir(ok, i + 1, cnt + 1, i), Reservoir(ok, i + 1, cnt + 1, pos))
  }

  /** The chance of x when n are eligible in all. */
  function Share(ok: seq<bool>, i: nat, cnt: nat, pos: nat, x: nat, n: real): real
    requires n > 0.0
  {
    if i <= x < |ok| && ok[x] then 1.0 / n
    else if x == pos then cnt as real / n
    else 0.0
  }

  lemma ShareStep(ok: seq<bool>, i: nat, cnt: nat, pos: nat, x: nat, n: real, p: real, other: real)
    requires i < |ok| && ok[i] && (cnt > 0 ==> pos < i) && n > 0.0
    requires cnt > 0 ==> other == Share(ok, i + 1, cnt + 1, pos, x, n)
    requires p * (cnt + 1) as real == Share(ok, i + 1, cnt + 1, i, x, n) + cnt as real * other
    ensures p == Share(ok, i, cnt, pos, x, n)
  {
    ReservoirStep(cnt, n, p, Share(ok, i + 1, cnt + 1, i, x, n), other);
    assert cnt == 0 ==> cnt as real / n == 0.0;
  }

  lemma ShareLast(ok: seq<bool>, cnt: nat, pos: nat, x: nat, n: real)
    requires n > 0.0 && n == cnt as real
    ensures Prob(Reservoir(ok, |ok|, cnt, pos), x) == Share(ok, |ok|, cnt, pos, x, n)
  {
    Quotient(1.0, n, n);
  }

  lemma ShareDraw(ok: seq<bool>, i: nat, cnt: nat, pos: nat, x: nat, n: real)
    requires i < |ok| && ok[i] && (cnt > 0 ==> pos < i) && n > 0.0
    requires Prob(Reservoir(ok, i + 1, cnt + 1, i), x) == Share(ok, i + 1, cnt + 1, i, x, n)
    requires cnt > 0 ==> Prob(Reservoir(ok, i + 1, cnt + 1, pos), x) == Share(ok, i + 1, cnt + 1, pos, x, n)
    ensures Prob(Reservoir(ok, i, cnt, pos), x) == Share(ok, i, cnt, pos, x, n)
  {
    var zero, other := Reservoir(ok, i + 1, cnt + 1, i), Reservoir(ok, i + 1, cnt + 1, pos);
    ZeroOrProb(cnt + 1, zero, other, x);
    ShareStep(ok, i, cnt, pos, x, n, Prob(Reservoir(ok, i, cnt, pos), x), Prob(other, x));
  }

  /** Those still to come and the choice so far share the chance fairly. */
  lemma {:induction false} ReservoirShare(ok: seq<bool>, i: nat, cnt: nat, pos: nat, x: nat, n: real)
    requires i <= |ok| && (cnt > 0 ==> pos < i)
    requires n == (cnt + Count(ok, i)) as real && n > 0.0
    ensures Prob(Reservoir(ok, i, cnt, pos), x) == Share(ok, i, cnt, pos, x, n)
    decreases |ok| - i
  {
    if i == |ok| {
      ShareLast(ok, cnt, pos, x, n);
    } else if !ok[i] {
      ReservoirShare(ok, i + 1, cnt, pos, x, n);
    } else {
      ReservoirShare(ok, i + 1, cnt + 1, i, x, n);
      if cnt > 0 {
        ReservoirShare(ok, i + 1, cnt + 1, pos, x, n);
      }
      ShareDraw(ok, i, cnt, pos, x, n);
    }
  }

  /** Of n eligible ones, each is chosen with chance 1/n. */
  lemma ReservoirFair(ok: seq<bool>, pos: nat, x: nat)
    requires Count(ok, 0) > 0
    ensures Prob(Reservoir(ok, 0, 0, pos), x) == if x < |ok| && ok[x] then 1.0 / Count(ok, 0) as real else 0.0
  {
    var n := Count(ok, 0) as real;
    ReservoirShare(ok, 0, 0, pos, x, n);
    assert 0.0 / n == 0.0;
  }

  lemma ReservoirStep(cnt: nat, n: real, p: real, zero: real, other: real)
    requires n > 0.0 && p * (cnt + 1) as real == zero + cnt as real * other
    ensures zero == 1.0 / n && (cnt == 0 || other == 1.0 / n) ==> p == 1.0 / n
    ensures zero == (cnt + 1) as real / n && (cnt == 0 || other == 0.0) ==> p == 1.0 / n
    ensures zero == 0.0 && cnt > 0 && other == (cnt + 1) as real / n ==> p == cnt as real / n
    ensures zero == 0.0 && (cnt == 0 || other == 0.0) ==> p == 0.0
  {
    var m := (cnt + 1) as real;
    if zero == 1.0 / n && (cnt == 0 || other == 1.0 / n) {
      assert p * m == m * (1.0 / n);
      Cancel(p, 1.0 / n, m);
    } else if zero == m / n && (cnt == 0 || other == 0.0) {
      Over(m, n);
      Cancel(p, 1.0 / n, m);
    } else if zero == 0.0 && cnt > 0 && other == m / n {
      Over(m, n);
      Over(cnt as real, n);
      assert p * m == cnt as real * (m * (1.0 / n)) == cnt as real * (1.0 / n) * m;
      Cancel(p, cnt as real / n, m);
    } else if zero == 0.0 && (cnt == 0 || other == 0.0) {
      Cancel(p, 0.0, m);
    }
  }

  lemma Over(m: real, n: real)
    requires n > 0.0
    ensures m / n == m * (1.0 / n)
  {
  }

  lemma Cancel(p: real, q: real, m: real)
    requires m > 0.0 && p * m == q * m
    ensures p == q
  {
    assert (p - q) * m == 0.0;
  }
}
