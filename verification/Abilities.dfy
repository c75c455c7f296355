/** Rolling the abilities of a new character: a table moved about at random, sorted and dealt out. */
module Abilities {
  import opened Text

  const ROUNDS := 24

  // ---------- Moving the table about ----------

  predicate IsTable(t: seq<int>) {
    |t| == 6 && forall i | 0 <= i < 6 :: 3 <= t[i] <= 18
  }

  function Sum(t: seq<int>): int
    requires |t| == 6
  {
    t[0] + t[1] + t[2] + t[3] + t[4] + t[5]
  }

  function Raised(t: seq<int>, i: nat): seq<int>
    requires i < |t|
  {
    t[i := t[i] + 1]
  }

  function Lowered(t: seq<int>, i: nat): seq<int>
    requires i < |t|
  {
    t[i := t[i] - 1]
  }

  /** Entry i, not yet 18, is raised and then entry j, not yet 3, lowered. */
  predicate Round(t: seq<int>, i: nat, j: nat, t': seq<int>)
    requires |t| == 6 && i < 6 && j < 6
  {
    t[i] != 18 && Raised(t, i)[j] != 3 && t' == Lowered(Raised(t, i), j)
  }

  /** t' comes from t in n rounds. */
  ghost predicate Reaches(t: seq<int>, n: nat, t': seq<int>)
    requires |t| == 6
    decreases n, 1
  {
    if n == 0 then t == t'
    else exists i: nat, j: nat :: i < 6 && j < 6 && Leads(t, i, j, n, t')
  }

  /** The same, with the first round given. */
  ghost predicate Leads(t: seq<int>, i: nat, j: nat, n: nat, t': seq<int>)
    requires |t| == 6 && i < 6 && j < 6 && n > 0
    decreases n, 0
  {
    var next := Lowered(Raised(t, i), j);
    Round(t, i, j, next) && Reaches(next, n - 1, t')
  }

  const START: seq<int> := [12, 12, 12, 12, 12, 12]

  lemma RaisedOk(t: seq<int>, i: nat)
    requires IsTable(t) && i < 6 && t[i] != 18
    ensures IsTable(Raised(t, i)) && Sum(Raised(t, i)) == Sum(t) + 1
  {
  }

  lemma LoweredOk(t: seq<int>, j: nat)
    requires IsTable(t) && j < 6 && t[j] != 3
    ensures IsTable(Lowered(t, j)) && Sum(Lowered(t, j)) == Sum(t) - 1
  {
  }

  /** There is always an entry to raise, and then one to lower, so drawing for one comes to an end. */
  lemma NeverStuck(t: seq<int>)
    requires IsTable(t) && Sum(t) == 72
    ensures exists i :: 0 <= i < 6 && t[i] != 18
    ensures forall i | 0 <= i < 6 :: Raised(t, i)[i] != 3
  {
    if !exists i :: 0 <= i < 6 && t[i] != 18 {
      AllHighest(t);
    }
  }

  lemma AllHighest(t: seq<int>)
    requires |t| == 6 && forall i | 0 <= i < 6 :: t[i] == 18
    ensures Sum(t) == 108
  {
  }

  lemma {:induction false} ReachedOk(t: seq<int>, n: nat, t': seq<int>)
    requires IsTable(t) && Reaches(t, n, t')
    ensures IsTable(t') && Sum(t') == Sum(t)
    decreases n
  {
    if n > 0 {
      var i: nat, j: nat :| i < 6 && j < 6 && Leads(t, i, j, n, t');
      RaisedOk(t, i);
      LoweredOk(Raised(t, i), j);
      ReachedOk(Lowered(Raised(t, i), j), n - 1, t');
    }
  }

  function Above(x: int, y: int): nat {
    if x > y then x - y else 0
  }

  /** How far t must still be raised to become u. */
  function Gap(t: seq<int>, u: seq<int>): nat
    requires |t| == |u| == 6
  {
    Above(u[0], t[0]) + Above(u[1], t[1]) + Above(u[2], t[2]) + Above(u[3], t[3]) + Above(u[4], t[4]) +
        Above(u[5], t[5])
  }

  lemma GapStep(t: seq<int>, u: seq<int>, i: nat, j: nat)
    requires |t| == |u| == 6 && i < 6 && j < 6 && t[i] < u[i] && t[j] > u[j]
    ensures Gap(Lowered(Raised(t, i), j), u) == Gap(t, u) - 1
  {
    GapRaised(t, u, i);
    GapLowered(Raised(t, i), u, j);
  }

  lemma GapRaised(t: seq<int>, u: seq<int>, i: nat)
    requires |t| == |u| == 6 && i < 6 && t[i] < u[i]
    ensures Gap(Raised(t, i), u) == Gap(t, u) - 1
  {
  }

  lemma GapLowered(t: seq<int>, u: seq<int>, j: nat)
    requires |t| == |u| == 6 && j < 6 && t[j] > u[j]
    ensures Gap(Lowered(t, j), u) == Gap(t, u)
  {
  }

  lemma Unequal(t: seq<int>, u: seq<int>)
    requires |t| == |u| == 6 && Sum(t) == Sum(u) && t != u
    ensures exists i: nat, j: nat :: i < 6 && j < 6 && t[i] < u[i] && t[j] > u[j]
  {
    var k :| 0 <= k < 6 && t[k] != u[k];
    if t[k] < u[k] {
      SomeAbove(t, u, k);
    } else {
      SomeAbove(u, t, k);
    }
  }

  lemma SomeAbove(t: seq<int>, u: seq<int>, k: nat)
    requires |t| == |u| == 6 && Sum(t) == Sum(u) && k < 6 && t[k] < u[k]
    ensures exists j: nat :: j < 6 && t[j] > u[j]
  {
    if t[0] <= u[0] && t[1] <= u[1] && t[2] <= u[2] && t[3] <= u[3] && t[4] <= u[4] {
      assert t[5] > u[5];
    }
  }

  /** Any table can be made from any other of the same sum in as many rounds as the gap needs, or more. */
  lemma {:induction false} Reachable(t: seq<int>, n: nat, u: seq<int>)
    requires IsTable(t) && IsTable(u) && Sum(t) == Sum(u) == 72 && Gap(t, u) <= n
    ensures Reaches(t, n, u)
    decreases n
  {
    if n > 0 {
      var i: nat, j: nat;
      if t == u {
        NeverStuck(t);
        var k :| 0 <= k < 6 && t[k] != 18;
        i, j := k, k;
        assert Lowered(Raised(t, k), k) == t;
      } else {
        Unequal(t, u);
        i, j :| i < 6 && j < 6 && t[i] < u[i] && t[j] > u[j];
        GapStep(t, u, i, j);
        RaisedOk(t, i);
        LoweredOk(Raised(t, i), j);
      }
      Reachable(Lowered(Raised(t, i), j), n - 1, u);
      assert Leads(t, i, j, n, u);
    } else {
      NoGap(t, u);
    }
  }

  lemma NoGap(t: seq<int>, u: seq<int>)
    requires |t| == |u| == 6 && Sum(t) == Sum(u) && Gap(t, u) == 0
    ensures t == u
  {
    if t != u {
      Unequal(t, u);
    }
  }

  lemma GapFromStart(u: seq<int>)
    requires IsTable(u) && Sum(u) == 72
    ensures Gap(START, u) <= 18
  {
    assert u[0] >= 3 && u[1] >= 3 && u[2] >= 3 && u[3] >= 3 && u[4] >= 3 && u[5] >= 3;
    assert u[0] <= 18 && u[1] <= 18 && u[2] <= 18 && u[3] <= 18 && u[4] <= 18 && u[5] <= 18;
  }

  /** The tables that can come out are exactly those of six entries in 3..18 that sum to 72; 18 of the 24
      rounds would do. */
  lemma RolledTables(rounds: nat, u: seq<int>)
    requires rounds >= 18
    ensures Reaches(START, rounds, u) <==> IsTable(u) && Sum(u) == 72
  {
    if Reaches(START, rounds, u) {
      ReachedOk(START, rounds, u);
    }
    if IsTable(u) && Sum(u) == 72 {
      GapFromStart(u);
      Reachable(START, rounds, u);
    }
  }

  // ---------- Rolling ----------

  /** A number from 0 to 5. */
  type Die = n: int | 0 <= n < 6

  /** The draws from one position up to another are all of entries at the limit. */
  predicate AllAt(t: seq<int>, limit: int, draws: seq<Die>, from: nat, to: nat)
    requires |t| == 6 && from <= to <= |draws|
  {
    forall k | from <= k < to :: t[draws[k]] == limit
  }

  /** The position of the first draw, from one on, of an entry that is not at the limit, or the number of
      draws. */
  function FirstFree(t: seq<int>, limit: int, draws: seq<Die>, from: nat): (u: nat)
    requires |t| == 6 && from <= |draws|
    ensures from <= u <= |draws| && AllAt(t, limit, draws, from, u) && (u < |draws| ==> t[draws[u]] != limit)
    decreases |draws| - from
  {
    if from == |draws| || t[draws[from]] != limit then from else FirstFree(t, limit, draws, from + 1)
  }

  lemma {:induction false} FirstFreeIs(t: seq<int>, limit: int, draws: seq<Die>, from: nat, u: nat)
    requires |t| == 6 && from <= u <= |draws| && AllAt(t, limit, draws, from, u)
    requires u < |draws| ==> t[draws[u]] != limit
    ensures FirstFree(t, limit, draws, from) == u
    decreases u - from
  {
    if from < u {
      FirstFreeIs(t, limit, draws, from + 1, u);
    }
  }

  /** The table after a round, and how many draws have been used. */
  datatype Turn = Turn(table: seq<int>, used: nat)

  predicate IsTurn(turn: Turn, draws: seq<Die>) {
    |turn.table| == 6 && turn.used <= |draws|
  }

  /** One round: the first entry drawn that is not 18 is raised and the next that is not 3 lowered; none if the
      draws run out. */
  function RolledOnce(t: seq<int>, draws: seq<Die>, from: nat): (r: Option<Turn>)
    requires |t| == 6 && from <= |draws|
    ensures r.Some? ==> IsTurn(r.value, draws)
  {
    var u := FirstFree(t, 18, draws, from);
    if u == |draws| then None else LoweredNext(Raised(t, draws[u]), draws, u + 1)
  }

  function LoweredNext(t: seq<int>, draws: seq<Die>, from: nat): (r: Option<Turn>)
    requires |t| == 6 && from <= |draws|
    ensures r.Some? ==> IsTurn(r.value, draws)
  {
    var v := FirstFree(t, 3, draws, from);
    if v == |draws| then None else Some(Turn(Lowered(t, draws[v]), v + 1))
  }

  /** The table after so many rounds with the draws from a position on; none if they run out. */
  function Rolled(t: seq<int>, n: nat, draws: seq<Die>, from: nat): (r: Option<seq<int>>)
    requires |t| == 6 && from <= |draws|
    ensures r.Some? ==> |r.value| == 6
    decreases n, 0
  {
    if n == 0 then Some(t) else GoOn(RolledOnce(t, draws, from), n - 1, draws)
  }

  /** The table after a turn, if there was one, and so many rounds more. */
  function GoOn(turn: Option<Turn>, n: nat, draws: seq<Die>): (r: Option<seq<int>>)
    requires turn.Some? ==> IsTurn(turn.value, draws)
    ensures r.Some? ==> |r.value| == 6
    decreases n, 1
  {
    match turn
    case None => None
    case Some(after) => Rolled(after.table, n, draws, after.used)
  }

  /** A round: draws of entries at 18 are passed over, the next entry drawn is raised; draws of entries at 3
      are passed over, the next one is lowered; and the following rounds have the draws after these. */
  lemma RollStep(t: seq<int>, n: nat, draws: seq<Die>, from: nat, u: nat, v: nat)
    requires |t| == 6 && from <= u < v < |draws|
    requires AllAt(t, 18, draws, from, u) && t[draws[u]] != 18
    requires AllAt(Raised(t, draws[u]), 3, draws, u + 1, v) && Raised(t, draws[u])[draws[v]] != 3
    ensures Rolled(t, n + 1, draws, from) == Rolled(Lowered(Raised(t, draws[u]), draws[v]), n, draws, v + 1)
  {
    TurnIs(t, draws, from, u, v);
    RolledMore(t, n, draws, from);
  }

  lemma RolledMore(t: seq<int>, n: nat, draws: seq<Die>, from: nat)
    requires |t| == 6 && from <= |draws|
    ensures Rolled(t, n + 1, draws, from) == GoOn(RolledOnce(t, draws, from), n, draws)
  {
  }

  lemma TurnIs(t: seq<int>, draws: seq<Die>, from: nat, u: nat, v: nat)
    requires |t| == 6 && from <= u < v < |draws|
    requires AllAt(t, 18, draws, from, u) && t[draws[u]] != 18
    requires AllAt(Raised(t, draws[u]), 3, draws, u + 1, v) && Raised(t, draws[u])[draws[v]] != 3
    ensures RolledOnce(t, draws, from) == Some(Turn(Lowered(Raised(t, draws[u]), draws[v]), v + 1))
  {
    FirstFreeIs(t, 18, draws, from, u);
    FirstFreeIs(Raised(t, draws[u]), 3, draws, u + 1, v);
  }

  /** Without a draw that can be used in the round there is no table. */
  lemma RollStuck(t: seq<int>, n: nat, draws: seq<Die>, from: nat, u: nat)
    requires |t| == 6 && from <= u <= |draws| && AllAt(t, 18, draws, from, u)
    requires u < |draws| ==> t[draws[u]] != 18 && AllAt(Raised(t, draws[u]), 3, draws, u + 1, |draws|)
    ensures Rolled(t, n + 1, draws, from) == None
  {
    FirstFreeIs(t, 18, draws, from, u);
    if u < |draws| {
      FirstFreeIs(Raised(t, draws[u]), 3, draws, u + 1, |draws|);
    }
  }

  lemma TurnIsRound(t: seq<int>, draws: seq<Die>, from: nat) returns (i: Die, j: Die)
    requires |t| == 6 && from <= |draws| && RolledOnce(t, draws, from).Some?
    ensures Round(t, i, j, RolledOnce(t, draws, from).value.table)
  {
    var u := FirstFree(t, 18, draws, from);
    i, j := draws[u], draws[FirstFree(Raised(t, draws[u]), 3, draws, u + 1)];
  }

  lemma ReachesAfter(t: seq<int>, i: Die, j: Die, next: seq<int>, n: nat, t': seq<int>)
    requires |t| == |next| == 6 && Round(t, i, j, next) && Reaches(next, n, t')
    ensures Reaches(t, n + 1, t')
  {
    assert Leads(t, i, j, n + 1, t');
  }

  /** What is rolled is reached in so many rounds. */
  lemma {:induction false} RolledReaches(t: seq<int>, n: nat, draws: seq<Die>, from: nat, t': seq<int>)
    requires |t| == 6 && from <= |draws| && Rolled(t, n, draws, from) == Some(t')
    ensures Reaches(t, n, t')
    decreases n
  {
    if n > 0 {
      var turn := RolledOnce(t, draws, from).value;
      RolledReaches(turn.table, n - 1, draws, turn.used, t');
      var i, j := TurnIsRound(t, draws, from);
      ReachesAfter(t, i, j, turn.table, n - 1, t');
    }
  }

  lemma {:induction false} FirstFreeBehind(t: seq<int>, limit: int, a: seq<Die>, draws: seq<Die>, from: nat)
    requires |t| == 6 && from <= |draws|
    ensures FirstFree(t, limit, a + draws, |a| + from) == |a| + FirstFree(t, limit, draws, from)
    decreases |draws| - from
  {
    if from < |draws| {
      assert (a + draws)[|a| + from] == draws[from];
      FirstFreeBehind(t, limit, a, draws, from + 1);
    }
  }

  function Behind(turn: Option<Turn>, n: nat): Option<Turn> {
    match turn
    case None => None
    case Some(after) => Some(after.(used := n + after.used))
  }

  lemma TurnBehind(t: seq<int>, a: seq<Die>, draws: seq<Die>, from: nat)
    requires |t| == 6 && from <= |draws|
    ensures RolledOnce(t, a + draws, |a| + from) == Behind(RolledOnce(t, draws, from), |a|)
  {
    FirstFreeBehind(t, 18, a, draws, from);
    var u := FirstFree(t, 18, draws, from);
    if u < |draws| {
      assert (a + draws)[|a| + u] == draws[u];
      FirstFreeBehind(Raised(t, draws[u]), 3, a, draws, u + 1);
    }
  }

  /** Draws in front of the position make no difference. */
  lemma {:induction false} RolledBehind(t: seq<int>, n: nat, a: seq<Die>, draws: seq<Die>, from: nat)
    requires |t| == 6 && from <= |draws|
    ensures Rolled(t, n, a + draws, |a| + from) == Rolled(t, n, draws, from)
    decreases n, 0
  {
    if n > 0 {
      TurnBehind(t, a, draws, from);
      GoOnBehind(RolledOnce(t, draws, from), n - 1, a, draws);
    }
  }

  lemma {:induction false} GoOnBehind(turn: Option<Turn>, n: nat, a: seq<Die>, draws: seq<Die>)
    requires turn.Some? ==> IsTurn(turn.value, draws)
    ensures GoOn(Behind(turn, |a|), n, a + draws) == GoOn(turn, n, draws)
    decreases n, 1
  {
    if turn.Some? {
      RolledBehind(turn.value.table, n, a, draws, turn.value.used);
    }
  }

  lemma FirstRound(t: seq<int>, n: nat, i: Die, j: Die, rest: seq<Die>)
    requires |t| == 6 && t[i] != 18 && Raised(t, i)[j] != 3
    ensures Rolled(t, n + 1, [i, j] + rest, 0) == Rolled(Lowered(Raised(t, i), j), n, rest, 0)
  {
    RollStep(t, n, [i, j] + rest, 0, 0, 1);
    RolledBehind(Lowered(Raised(t, i), j), n, [i, j], rest, 0);
  }

  /** And whatever is reached in so many rounds some draws yield. */
  lemma {:induction false} SomeDraws(t: seq<int>, n: nat, t': seq<int>) returns (draws: seq<Die>)
    requires |t| == 6 && Reaches(t, n, t')
    ensures Rolled(t, n, draws, 0) == Some(t')
    decreases n, 1
  {
    draws := [];
    if n > 0 {
      var i: nat, j: nat :| i < 6 && j < 6 && Leads(t, i, j, n, t');
      draws := MoreDraws(t, n, i, j, t');
    }
  }

  lemma {:induction false} MoreDraws(t: seq<int>, n: nat, i: Die, j: Die, t': seq<int>) returns (draws: seq<Die>)
    requires |t| == 6 && n > 0 && Leads(t, i, j, n, t')
    ensures Rolled(t, n, draws, 0) == Some(t')
    decreases n, 0
  {
    var rest := SomeDraws(Lowered(Raised(t, i), j), n - 1, t');
    FirstRound(t, n - 1, i, j, rest);
    draws := [i, j] + rest;
  }

  /** The tables that some draws yield are exactly those of six entries in 3..18 that sum to 72. */
  lemma SomeRoll(rounds: nat, u: seq<int>)
    requires rounds >= 18
    ensures (exists draws :: Rolled(START, rounds, draws, 0) == Some(u)) <==> IsTable(u) && Sum(u) == 72
  {
    RolledTables(rounds, u);
    if Reaches(START, rounds, u) {
      var draws := SomeDraws(START, rounds, u);
    }
    forall draws | Rolled(START, rounds, draws, 0) == Some(u) ensures Reaches(START, rounds, u) {
      RolledReaches(START, rounds, draws, 0, u);
    }
  }

  /** Draws until it comes to an entry that is not at the limit; false when the draws run out first. */
  method DrawEntry(table: array<int>, limit: int, draws: seq<Die>, from: nat) returns (used: nat, ok: bool)
    requires table.Length == 6 && from <= |draws|
    ensures used == FirstFree(table[..], limit, draws, from) && (ok <==> used < |draws|)
  {
    used := from;
    while used < |draws| && table[draws[used]] == limit
      invariant from <= used <= |draws|
      invariant FirstFree(table[..], limit, draws, from) == FirstFree(table[..], limit, draws, used)
    {
      used := used + 1;
    }
    ok := used < |draws|;
  }

  /** Raises the first entry drawn that is not 18 and lowers the next that is not 3. */
  method RollOnce(table: array<int>, draws: seq<Die>, from: nat) returns (used: nat, ok: bool)
    requires table.Length == 6 && from <= |draws|
    modifies table
    ensures RolledOnce(old(table[..]), draws, from) == if ok then Some(Turn(table[..], used)) else None
  {
    used, ok := DrawEntry(table, 18, draws, from);
    if ok {
      table[draws[used]] := table[draws[used]] + 1;
      assert table[..] == Raised(old(table[..]), draws[used]);
      used, ok := LowerNext(table, draws, used + 1);
    }
  }

  method LowerNext(table: array<int>, draws: seq<Die>, from: nat) returns (used: nat, ok: bool)
    requires table.Length == 6 && from <= |draws|
    modifies table
    ensures LoweredNext(old(table[..]), draws, from) == if ok then Some(Turn(table[..], used)) else None
  {
    used, ok := DrawEntry(table, 3, draws, from);
    if ok {
      table[draws[used]] := table[draws[used]] - 1;
      assert table[..] == Lowered(old(table[..]), draws[used]);
      used := used + 1;
    }
  }

  /** So many rounds; false when the draws run out first. */
  method RollRounds(table: array<int>, rounds: nat, draws: seq<Die>) returns (ok: bool)
    requires table.Length == 6
    modifies table
    ensures ok <==> Rolled(old(table[..]), rounds, draws, 0).Some?
    ensures ok ==> Rolled(old(table[..]), rounds, draws, 0) == Some(table[..])
  {
    ghost var whole := Rolled(table[..], rounds, draws, 0);
    var used: nat := 0;
    for n := 0 to rounds
      invariant used <= |draws| && Rolled(table[..], rounds - n, draws, used) == whole
    {
      used, ok := RollOnce(table, draws, used);
      if !ok {
        return;
      }
    }
    ok := true;
  }

  method RollTable(rounds: nat, draws: seq<Die>) returns (table: array<int>, ok: bool)
    ensures fresh(table) && table.Length == 6
    ensures ok <==> Rolled(START, rounds, draws, 0).Some?
    ensures ok ==> table[..] == Rolled(START, rounds, draws, 0).value
  {
    table := new int[6](i => 12);
    assert table[..] == START;
    ok := RollRounds(table, rounds, draws);
  }

  // ---------- Sorting ----------

  /** Exclusive or, bit by bit. */
  function Xor(a: nat, b: nat): nat {
    if a == 0 && b == 0 then 0 else (if a % 2 != b % 2 then 1 else 0) + 2 * Xor(a / 2, b / 2)
  }

  lemma {:induction false} XorTwice(a: nat, b: nat)
    ensures Xor(Xor(a, b), b) == a && Xor(b, Xor(a, b)) == a
    decreases a + b
  {
    if a != 0 || b != 0 {
      XorTwice(a / 2, b / 2);
      var x := Xor(a, b);
      assert x / 2 == Xor(a / 2, b / 2) && x % 2 == if a % 2 != b % 2 then 1 else 0;
    }
  }

  predicate Descending(t: seq<int>) {
    forall i, j | 0 <= i < j < |t| :: t[i] >= t[j]
  }

  function Exchanged(t: seq<int>, j: nat, k: nat): seq<int>
    requires j < |t| && k < |t|
  {
    t[j := t[k]][k := t[j]]
  }

  lemma ExchangeKeeps(t: seq<int>, j: nat, k: nat)
    requires IsTable(t) && j < k < 6
    ensures IsTable(Exchanged(t, j, k)) && Sum(Exchanged(t, j, k)) == Sum(t)
    ensures multiset(Exchanged(t, j, k)) == multiset(t)
  {
    ExchangeRearranges(t, j, k);
  }

  lemma ExchangeRearranges(t: seq<int>, j: nat, k: nat)
    requires j < k < |t|
    ensures multiset(Exchanged(t, j, k)) == multiset(t)
  {
  }

  /** Exchanges two entries without a place to keep one. */
  method Exchange(table: array<int>, j: nat, k: nat)
    requires j < k < table.Length && table[j] >= 0 && table[k] >= 0
    modifies table
    ensures table[..] == Exchanged(old(table[..]), j, k)
  {
    var a: nat, b: nat := table[j], table[k];
    XorTwice(a, b);
    XorTwice(b, Xor(a, b));
    table[j] := Xor(table[j], table[k]);
    table[k] := Xor(table[k], table[j]);
    table[j] := Xor(table[j], table[k]);
  }

  /** The same entries in some order. */
  predicate Rearranged(t: seq<int>, t': seq<int>) {
    IsTable(t) && IsTable(t') && Sum(t) == Sum(t') && multiset(t) == multiset(t')
  }

  /** The first j entries are in their places, and entry j is the largest of those up to k. */
  predicate SortedTo(t: seq<int>, j: nat, k: nat)
    requires |t| == 6 && j <= k <= 6
  {
    && (forall p, q | 0 <= p < j && p < q < 6 :: t[p] >= t[q])
    && (forall q | j <= q < k :: t[j] >= t[q])
  }

  lemma ExchangeSorts(t: seq<int>, j: nat, k: nat)
    requires IsTable(t) && j < k < 6 && SortedTo(t, j, k) && t[k] > t[j]
    ensures SortedTo(Exchanged(t, j, k), j, k + 1)
  {
  }

  method SortTable(table: array<int>)
    requires IsTable(table[..])
    modifies table
    ensures Rearranged(old(table[..]), table[..]) && Descending(table[..])
  {
    for j := 0 to 6
      invariant Rearranged(old(table[..]), table[..]) && SortedTo(table[..], j, j)
    {
      SortEntry(table, j);
    }
  }

  /** Brings the largest of the entries from j on to j. */
  method SortEntry(table: array<int>, j: nat)
    requires IsTable(table[..]) && j < 6 && SortedTo(table[..], j, j)
    modifies table
    ensures Rearranged(old(table[..]), table[..]) && SortedTo(table[..], j + 1, j + 1)
  {
    for k := j to 6
      invariant Rearranged(old(table[..]), table[..]) && SortedTo(table[..], j, k)
    {
      ghost var t := table[..];
      assert t[j] == table[j] && t[k] == table[k];
      if table[k] > table[j] {
        ExchangeKeeps(t, j, k);
        ExchangeSorts(t, j, k);
        Exchange(table, j, k);
      }
    }
  }

  // ---------- Dealing out ----------

  datatype Borg = Mentant | Speed | OtherBorg

  datatype Class = MagicUser | Cleric | Thief | Warrior | Barb | Psionic | Physic | Cyborg(borg: Borg) | Knight | Ranger
    | Monk | Vampire | Mercenary | Bard | OtherClass

  datatype Ability = Str | Intel | Wis | Dex | Con | Cha

  /** The abilities of a class, the one that gets the best value first. */
  function Priorities(cls: Class): (r: seq<Ability>)
    ensures |r| == 6 && Str in r && Intel in r && Wis in r && Dex in r && Con in r && Cha in r
  {
    match cls
    case MagicUser => [Intel, Wis, Dex, Cha, Con, Str]
    case Cleric => [Wis, Intel, Str, Dex, Con, Cha]
    case Thief => [Dex, Str, Con, Intel, Wis, Cha]
    case Warrior => [Str, Dex, Con, Wis, Intel, Cha]
    case Barb => [Str, Con, Dex, Wis, Intel, Cha]
    case Psionic => [Intel, Wis, Dex, Str, Con, Cha]
    case Physic => [Intel, Wis, Dex, Str, Con, Cha]
    case Knight => [Str, Con, Wis, Dex, Intel, Cha]
    case Ranger => [Dex, Wis, Con, Str, Intel, Cha]
    case Monk => [Dex, Con, Str, Wis, Intel, Cha]
    case Vampire => [Dex, Con, Str, Intel, Wis, Cha]
    case Mercenary => [Str, Con, Dex, Intel, Wis, Cha]
    case Bard => [Cha, Dex, Str, Con, Wis, Intel]
    case OtherClass => [Dex, Con, Str, Wis, Intel, Cha]
    case Cyborg(Mentant) => [Intel, Str, Dex, Con, Wis, Cha]
    case Cyborg(Speed) => [Dex, Con, Str, Intel, Wis, Cha]
    case Cyborg(OtherBorg) => [Str, Con, Dex, Intel, Wis, Cha]
  }

  datatype Abils = Abils(str: int, intel: int, wis: int, dex: int, con: int, cha: int) {
    function Value(a: Ability): int {
      match a
      case Str => str
      case Intel => intel
      case Wis => wis
      case Dex => dex
      case Con => con
      case Cha => cha
    }

    function Total(): int {
      str + intel + wis + dex + con + cha
    }
  }

  /** The values are those of the table, the best going where the class wants it most. */
  predicate Dealt(cls: Class, table: seq<int>, abils: Abils)
    requires |table| == 6
  {
    forall i | 0 <= i < 6 :: abils.Value(Priorities(cls)[i]) == table[i]
  }

  /** Every ability gets an entry of its own. */
  lemma DealtAll(cls: Class, table: seq<int>, abils: Abils)
    requires |table| == 6 && Dealt(cls, table, abils)
    ensures abils.Total() == Sum(table)
    ensures forall a: Ability :: abils.Value(a) in table
  {
    var p := Priorities(cls);
    forall a: Ability ensures abils.Value(a) in table {
      assert a == Str || a == Intel || a == Wis || a == Dex || a == Con || a == Cha;
      assert a in p;
      var i :| 0 <= i < 6 && p[i] == a;
    }
    DealtTotal(cls, table, abils);
  }

  predicate IsCaster(cls: Class) {
    cls == MagicUser || cls == Cleric || cls == Psionic || cls == Physic
  }

  predicate IsFighter(cls: Class) {
    cls == Warrior || cls == Barb || cls == Knight || cls == Mercenary
  }

  predicate IsNimble(cls: Class) {
    cls == Thief || cls == Ranger || cls == Monk || cls == Vampire
  }

  /** The sum of all abilities, in the order of the class. */
  function InOrder(cls: Class, abils: Abils): int {
    var p := Priorities(cls);
    abils.Value(p[0]) + abils.Value(p[1]) + abils.Value(p[2]) + abils.Value(p[3]) + abils.Value(p[4])
    + abils.Value(p[5])
  }

  lemma CasterTotal(cls: Class, abils: Abils)
    requires IsCaster(cls)
    ensures InOrder(cls, abils) == abils.Total()
  {
  }

  lemma FighterTotal(cls: Class, abils: Abils)
    requires IsFighter(cls)
    ensures InOrder(cls, abils) == abils.Total()
  {
    match cls
    case Warrior =>
    case Barb =>
    case Knight =>
    case Mercenary =>
  }

  lemma OtherTotal(cls: Class, abils: Abils)
    requires cls == Bard || cls == OtherClass
    ensures InOrder(cls, abils) == abils.Total()
  {
    match cls
    case Bard =>
    case OtherClass =>
  }

  lemma BorgTotal(cls: Class, abils: Abils)
    requires cls.Cyborg?
    ensures InOrder(cls, abils) == abils.Total()
  {
  }

  lemma NimbleTotal(cls: Class, abils: Abils)
    requires IsNimble(cls)
    ensures InOrder(cls, abils) == abils.Total()
  {
    match cls
    case Thief =>
    case Ranger =>
    case Monk =>
    case Vampire =>
  }

  lemma DealtTotal(cls: Class, table: seq<int>, abils: Abils)
    requires |table| == 6 && Dealt(cls, table, abils)
    ensures abils.Total() == Sum(table)
  {
    assert InOrder(cls, abils) == Sum(table);
    if IsCaster(cls) {
      CasterTotal(cls, abils);
    } else if IsFighter(cls) {
      FighterTotal(cls, abils);
    } else if IsNimble(cls) {
      NimbleTotal(cls, abils);
    } else if cls.Cyborg? {
      BorgTotal(cls, abils);
    } else {
      OtherTotal(cls, abils);
    }
  }

  /** Every ability is in 3..18, together they are 72, and one that the class puts first is at least as
      good. */
  predicate WellRolled(cls: Class, abils: Abils) {
    && abils.Total() == 72
    && (forall a: Ability :: 3 <= abils.Value(a) <= 18)
    && forall i, j | 0 <= i < j < 6 :: abils.Value(Priorities(cls)[i]) >= abils.Value(Priorities(cls)[j])
  }

  /** The abilities in the order in which the class wants them. */
  function InTurn(cls: Class, abils: Abils): seq<int> {
    seq(6, i requires 0 <= i < 6 => abils.Value(Priorities(cls)[i]))
  }

  lemma DealtInTurn(cls: Class, table: seq<int>, abils: Abils)
    requires |table| == 6 && Dealt(cls, table, abils)
    ensures InTurn(cls, abils) == table
  {
  }

  lemma RolledWell(cls: Class, table: seq<int>, abils: Abils)
    requires IsTable(table) && Sum(table) == 72 && Descending(table) && Dealt(cls, table, abils)
    ensures WellRolled(cls, abils)
  {
    DealtAll(cls, table, abils);
    forall a: Ability ensures 3 <= abils.Value(a) <= 18 {
      var i :| 0 <= i < 6 && table[i] == abils.Value(a);
    }
  }

  class Character {
    var realAbils: Abils

    method DealOut(cls: Class, table: seq<int>)
      requires |table| == 6
      modifies this
      ensures Dealt(cls, table, realAbils)
    {
      if IsCaster(cls) {
        DealOutCaster(cls, table);
      } else if IsFighter(cls) {
        DealOutFighter(cls, table);
      } else if IsNimble(cls) {
        DealOutNimble(cls, table);
      } else if cls.Cyborg? {
        DealOutBorg(cls.borg, table);
      } else {
        DealOutOther(cls, table);
      }
    }

    method DealOutCaster(cls: Class, table: seq<int>)
      requires |table| == 6 && IsCaster(cls)
      modifies this
      ensures Dealt(cls, table, realAbils)
    {
      match cls
      case MagicUser => realAbils := Abils(table[5], table[0], table[1], table[2], table[4], table[3]);
      case Cleric => realAbils := Abils(table[2], table[1], table[0], table[3], table[4], table[5]);
      case Psionic => realAbils := Abils(table[3], table[0], table[1], table[2], table[4], table[5]);
      case Physic => realAbils := Abils(table[3], table[0], table[1], table[2], table[4], table[5]);
    }

    method DealOutFighter(cls: Class, table: seq<int>)
      requires |table| == 6 && IsFighter(cls)
      modifies this
      ensures Dealt(cls, table, realAbils)
    {
      match cls
      case Warrior => realAbils := Abils(table[0], table[4], table[3], table[1], table[2], table[5]);
      case Barb => realAbils := Abils(table[0], table[4], table[3], table[2], table[1], table[5]);
      case Knight => realAbils := Abils(table[0], table[4], table[2], table[3], table[1], table[5]);
      case Mercenary => realAbils := Abils(table[0], table[3], table[4], table[2], table[1], table[5]);
    }

    method DealOutNimble(cls: Class, table: seq<int>)
      requires |table| == 6 && IsNimble(cls)
      modifies this
      ensures Dealt(cls, table, realAbils)
    {
      match cls
      case Thief => realAbils := Abils(table[1], table[3], table[4], table[0], table[2], table[5]);
      case Ranger => realAbils := Abils(table[3], table[4], table[1], table[0], table[2], table[5]);
      case Monk => realAbils := Abils(table[2], table[4], table[3], table[0], table[1], table[5]);
      case Vampire => realAbils := Abils(table[2], table[3], table[4], table[0], table[1], table[5]);
    }

    method DealOutOther(cls: Class, table: seq<int>)
      requires |table| == 6 && (cls == Bard || cls == OtherClass)
      modifies this
      ensures Dealt(cls, table, realAbils)
    {
      match cls
      case Bard => realAbils := Abils(table[2], table[5], table[4], table[1], table[3], table[0]);
      case OtherClass => realAbils := Abils(table[2], table[4], table[3], table[0], table[1], table[5]);
    }

    method DealOutBorg(borg: Borg, table: seq<int>)
      requires |table| == 6
      modifies this
      ensures Dealt(Cyborg(borg), table, realAbils)
    {
      match borg
      case Mentant => realAbils := Abils(table[1], table[0], table[4], table[2], table[3], table[5]);
      case Speed => realAbils := Abils(table[2], table[3], table[4], table[0], table[1], table[5]);
      case OtherBorg => realAbils := Abils(table[0], table[3], table[4], table[2], table[1], table[5]);
    }

    /** Rolls all abilities, before what the race adds; false when the draws run out first. */
    method RollRealAbils(cls: Class, draws: seq<Die>) returns (ok: bool)
      modifies this
      ensures ok <==> Rolled(START, ROUNDS, draws, 0).Some?
      ensures ok ==> WellRolled(cls, realAbils)
      ensures ok ==> multiset(InTurn(cls, realAbils)) == multiset(Rolled(START, ROUNDS, draws, 0).value)
      ensures !ok ==> realAbils == old(realAbils)
    {
      var table;
      table, ok := RollAndSort(draws);
      if ok {
        DealOut(cls, table);
        RolledWell(cls, table, realAbils);
        DealtInTurn(cls, table, realAbils);
      }
    }
  }

  method RollAndSort(draws: seq<Die>) returns (sorted: seq<int>, ok: bool)
    ensures ok <==> Rolled(START, ROUNDS, draws, 0).Some?
    ensures ok ==> IsTable(sorted) && Sum(sorted) == 72 && Descending(sorted)
    ensures ok ==> multiset(sorted) == multiset(Rolled(START, ROUNDS, draws, 0).value)
  {
    var rounds: nat := ROUNDS;
    var table;
    table, ok := RollTable(rounds, draws);
    if !ok {
      return [], false;
    }
    RolledReaches(START, rounds, draws, 0, table[..]);
    RolledTables(rounds, table[..]);
    SortTable(table);
    sorted := table[..];
  }
}
