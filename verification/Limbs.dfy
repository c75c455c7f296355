/** Choosing the limb that a blow hits: a table of weights that the first call turns into running sums. */
module Limbs {
  import opened Chance

  const NUM_WEARS := 27
  const WEAR_BODY := 5
  const WEAR_ARMS := 10
  const WEAR_SHIELD := 11

  /** The weight of each place. */
  const WEIGHTS: seq<nat> := [0, 3, 3, 4, 4, 35, 12, 20, 5, 10, 25, 50, 0, 10, 5, 5, 0, 0, 15, 5, 5, 0, 10, 4, 4, 0, 0]

  /** Light, about, wield, hold, belt, second wield and rear are no places to be hit at. */
  predicate DamageOk(i: nat) {
    i != 0 && i != 12 && i != 17 && i != 21 && i != 16 && i != 25 && i != 26
  }

  // ---------- Running sums ----------

  /** The sum of the first k weights. */
  function Sum(w: seq<nat>, k: nat): nat
    requires k <= |w|
  {
    if k == 0 then 0 else Sum(w, k - 1) + w[k - 1]
  }

  lemma {:induction false} SumGrows(w: seq<nat>, j: nat, k: nat)
    requires j <= k <= |w|
    ensures Sum(w, j) <= Sum(w, k)
    decreases k - j
  {
    if j < k {
      SumGrows(w, j, k - 1);
    }
  }

  /** The roll falls in the bucket of place i. */
  predicate InBucket(w: seq<nat>, i: nat, roll: nat)
    requires i < |w|
  {
    Sum(w, i) < roll <= Sum(w, i + 1)
  }

  /** The bucket of a roll, counting up from place i. */
  function Bucket(w: seq<nat>, i: nat, roll: nat): (b: nat)
    requires i < |w| && Sum(w, i) < roll <= Sum(w, |w|)
    ensures i <= b < |w| && InBucket(w, b, roll)
    decreases |w| - i
  {
    if i + 1 == |w| || roll <= Sum(w, i + 1) then i
    else Bucket(w, i + 1, roll)
  }

  /** No other bucket has the roll. */
  lemma OneBucket(w: seq<nat>, roll: nat, i: nat)
    requires i < |w| && InBucket(w, i, roll) && roll <= Sum(w, |w|)
    ensures roll > Sum(w, 0) && Bucket(w, 0, roll) == i
  {
    var b := Bucket(w, 0, roll);
    if b < i {
      SumGrows(w, b + 1, i);
    } else if i < b {
      SumGrows(w, i + 1, b);
    }
  }

  // ---------- The chance of each limb ----------

  /** From a bucket to the limb: without a shield, what would hit it hits arms or body. */
  function Adjusted(i: nat, shield: bool): Dist<nat> {
    if i == WEAR_SHIELD && !shield then ZeroOr(3, Return(WEAR_ARMS), Return(WEAR_BODY))
    else Return(if DamageOk(i) then i else WEAR_BODY)
  }

  /** One roll over the whole table. */
  function LimbDist(w: seq<nat>, shield: bool): Dist<nat> {
    Draw(seq(Sum(w, |w|), v requires 0 <= v < Sum(w, |w|) => Adjusted(Bucket(w, 0, v + 1), shield)))
  }

  /** Each place in turn, as often as it has weight. */
  function Blocks(w: seq<nat>, k: nat, shield: bool): (r: seq<Dist<nat>>)
    requires k <= |w|
    ensures |r| == Sum(w, k)
  {
    if k == 0 then [] else Blocks(w, k - 1, shield) + Copies(w[k - 1], Adjusted(k - 1, shield))
  }

  lemma {:induction false} BlockAt(w: seq<nat>, k: nat, shield: bool, v: nat)
    requires k <= |w| && v < Sum(w, k)
    ensures Sum(w, k) <= Sum(w, |w|) && Blocks(w, k, shield)[v] == Adjusted(Bucket(w, 0, v + 1), shield)
    decreases k
  {
    SumGrows(w, k, |w|);
    if v < Sum(w, k - 1) {
      BlockAt(w, k - 1, shield, v);
    } else {
      OneBucket(w, v + 1, k - 1);
    }
  }

  lemma {:induction false} TotalConcat<T>(a: seq<Dist<T>>, b: seq<Dist<T>>, x: T)
    ensures Total(a + b, x) == Total(a, x) + Total(b, x)
    decreases |a|
  {
    if a == [] {
      assert a + b == b;
    } else {
      assert (a + b)[1..] == a[1..] + b;
      TotalConcat(a[1..], b, x);
    }
  }

  /** The chances of x, weighted. */
  function Weighted(w: seq<nat>, k: nat, shield: bool, x: nat): real
    requires k <= |w|
  {
    if k == 0 then 0.0 else Weighted(w, k - 1, shield, x) + Part(w, k - 1, shield, x)
  }

  function Part(w: seq<nat>, i: nat, shield: bool, x: nat): real
    requires i < |w|
  {
    Times(w[i], Prob(Adjusted(i, shield), x))
  }

  lemma {:induction false} BlocksTotal(w: seq<nat>, k: nat, shield: bool, x: nat)
    requires k <= |w|
    ensures Total(Blocks(w, k, shield), x) == Weighted(w, k, shield, x)
    decreases k
  {
    if k > 0 {
      BlocksTotal(w, k - 1, shield, x);
      BlockTotal(w, k - 1, shield, x);
    }
  }

  lemma BlockTotal(w: seq<nat>, i: nat, shield: bool, x: nat)
    requires i < |w|
    ensures Total(Blocks(w, i + 1, shield), x) == Total(Blocks(w, i, shield), x) + Part(w, i, shield, x)
  {
    var d := Adjusted(i, shield);
    TotalConcat(Blocks(w, i, shield), Copies(w[i], d), x);
    TotalSame(w[i], d, x);
  }

  lemma LimbKids(w: seq<nat>, shield: bool)
    ensures LimbDist(w, shield) == Draw(Blocks(w, |w|, shield))
  {
    var kids := LimbDist(w, shield).kids;
    forall v | 0 <= v < Sum(w, |w|) ensures kids[v] == Blocks(w, |w|, shield)[v] {
      BlockAt(w, |w|, shield, v);
    }
  }

  lemma LimbProb(w: seq<nat>, shield: bool, x: nat)
    requires Sum(w, |w|) > 0
    ensures Prob(LimbDist(w, shield), x) == Weighted(w, |w|, shield, x) / Sum(w, |w|) as real
  {
    LimbKids(w, shield);
    BlocksTotal(w, |w|, shield, x);
  }

  /** Places that cannot be hit have no weight. */
  predicate Hittable(w: seq<nat>) {
    forall i | 0 <= i < |w| && !DamageOk(i) :: w[i] == 0
  }

  /** What x gets of the shield's chance. */
  function ShieldShare(shield: bool, x: nat): real {
    if shield then (if x == WEAR_SHIELD then 1.0 else 0.0)
    else if x == WEAR_ARMS then 1.0 / 3.0
    else if x == WEAR_BODY then 2.0 / 3.0
    else 0.0
  }

  lemma ShieldProb(shield: bool, x: nat)
    ensures Prob(Adjusted(WEAR_SHIELD, shield), x) == ShieldShare(shield, x)
  {
    if !shield {
      ZeroOrProb(3, Return(WEAR_ARMS), Return(WEAR_BODY), x);
    }
  }

  lemma PartIs(w: seq<nat>, i: nat, shield: bool, x: nat)
    requires i < |w| && Hittable(w) && i != WEAR_SHIELD
    ensures Part(w, i, shield, x) == if x == i then w[i] as real else 0.0
  {
    assert Prob(Adjusted(i, shield), x) == if x == (if DamageOk(i) then i else WEAR_BODY) then 1.0 else 0.0;
  }

  function Expected(w: seq<nat>, k: nat, shield: bool, x: nat): real
    requires k <= |w|
  {
    (if x < k && x != WEAR_SHIELD then w[x] as real else 0.0)
    + if k > WEAR_SHIELD then Times(w[WEAR_SHIELD], ShieldShare(shield, x)) else 0.0
  }

  lemma {:induction false} WeightedIs(w: seq<nat>, k: nat, shield: bool, x: nat)
    requires k <= |w| && Hittable(w)
    ensures Weighted(w, k, shield, x) == Expected(w, k, shield, x)
    decreases k
  {
    if k > 0 {
      WeightedIs(w, k - 1, shield, x);
      if k - 1 == WEAR_SHIELD {
        ShieldProb(shield, x);
      } else {
        PartIs(w, k - 1, shield, x);
      }
    }
  }

  /** What is used of the weights: nothing that cannot be hit has any, and something does. */
  predicate Usable(w: seq<nat>) {
    |w| == NUM_WEARS && Hittable(w) && Sum(w, |w|) > 0
  }

  lemma WeightSum()
    ensures Usable(WEIGHTS) && Sum(WEIGHTS, NUM_WEARS) == 234
  {
    assert Sum(WEIGHTS, 2) == 3 && Sum(WEIGHTS, 4) == 10 && Sum(WEIGHTS, 6) == 49 && Sum(WEIGHTS, 8) == 81;
    assert Sum(WEIGHTS, 10) == 96 && Sum(WEIGHTS, 12) == 171 && Sum(WEIGHTS, 14) == 181 && Sum(WEIGHTS, 16) == 191;
    assert Sum(WEIGHTS, 18) == 191 && Sum(WEIGHTS, 20) == 211 && Sum(WEIGHTS, 22) == 216 && Sum(WEIGHTS, 24) == 230;
  }

  /** Each limb is hit with its own weight out of the sum, and the shield's weight, where there is no
      shield, goes to arms and body, one third and two. */
  lemma LimbChance(w: seq<nat>, shield: bool, x: nat)
    requires Usable(w)
    ensures Prob(LimbDist(w, shield), x) ==
      ((if x < NUM_WEARS && x != WEAR_SHIELD then w[x] as real else 0.0) +
          w[WEAR_SHIELD] as real * ShieldShare(shield, x))
        / Sum(w, NUM_WEARS) as real
  {
    LimbProb(w, shield, x);
    WeightedIs(w, NUM_WEARS, shield, x);
  }

  lemma FollowLimb(w: seq<nat>, shield: bool, draws: seq<nat>)
    requires Admits(LimbDist(w, shield), draws)
    ensures draws != [] && draws[0] < Sum(w, |w|)
    ensures var d := Adjusted(Bucket(w, 0, draws[0] + 1), shield);
      Admits(d, draws[1..]) && Follow(LimbDist(w, shield), draws) == Follow(d, draws[1..])
  {
  }

  // ---------- The table ----------

  class LimbTable {
    const weights: seq<nat>
    const probs: array<nat>
    var probmax: nat

    ghost predicate Fresh()
      reads this, probs
    {
      Usable(weights) && probmax == 0 && probs[..] == weights
    }

    /** Every entry is the sum of the weights up to it. */
    ghost predicate Built()
      reads this, probs
    {
      && Usable(weights) && probs.Length == NUM_WEARS && probmax == Sum(weights, NUM_WEARS)
      && forall i | 0 <= i < NUM_WEARS :: probs[i] == Sum(weights, i + 1)
    }

    constructor ()
      ensures Fresh() && fresh(probs) && weights == WEIGHTS
    {
      WeightSum();
      weights := WEIGHTS;
      probs := new nat[|WEIGHTS|](i requires 0 <= i < |WEIGHTS| => WEIGHTS[i]);
      probmax := 0;
    }

    method Build()
      requires Fresh()
      modifies this, probs
      ensures Built()
    {
      assert probs.Length == |probs[..]| == NUM_WEARS;
      assert forall j | 0 <= j < NUM_WEARS :: probs[j] == probs[..][j] == weights[j];
      for i := 0 to NUM_WEARS
        invariant probmax == Sum(weights, i)
        invariant forall j | 0 <= j < i :: probs[j] == Sum(weights, j + 1)
        invariant forall j | i <= j < NUM_WEARS :: probs[j] == weights[j]
      {
        probmax := probmax + probs[i];
        if i >= 1 {
          probs[i] := probs[i] + probs[i - 1];
        }
      }
    }

    /** The first bucket from 1 on that has the roll; there is one for every roll. */
    method Find(roll: nat) returns (i: nat)
      requires Built() && 1 <= roll <= probmax
      ensures i < NUM_WEARS && InBucket(weights, i, roll) && i == Bucket(weights, 0, roll)
    {
      i := 1;
      assert !DamageOk(0) && Sum(weights, 1) == Sum(weights, 0) + weights[0] == 0;
      while i < NUM_WEARS && !(roll > probs[i - 1] && roll <= probs[i])
        invariant 1 <= i <= NUM_WEARS && roll > probs[i - 1]
        decreases NUM_WEARS - i
      {
        i := i + 1;
      }
      OneBucket(weights, roll, i);
    }

    /** Each call yields a limb with the chances above, and only the first changes the table. */
    method Choose(shield: bool, draws: seq<nat>) returns (limb: int)
      requires Fresh() || Built()
      requires Admits(LimbDist(weights, shield), draws)
      modifies this, probs
      ensures Built() && limb == Follow(LimbDist(weights, shield), draws)
      ensures DamageOk(limb)
      ensures old(Built()) ==> probs[..] == old(probs[..])
    {
      if probmax == 0 {
        Build();
      }
      assert old(Built()) ==> forall j | 0 <= j < NUM_WEARS :: probs[j] == old(probs[j]);
      FollowLimb(weights, shield, draws);
      var i := Find(draws[0] + 1);
      if i == WEAR_SHIELD && !shield {
        FollowZeroOr(3, Return(WEAR_ARMS), Return(WEAR_BODY), draws[1..]);
        if draws[1] == 0 {
          return WEAR_ARMS;
        } else {
          return WEAR_BODY;
        }
      }
      limb := if DamageOk(i) then i else WEAR_BODY;
    }
  }
}
