/** The grievance ledger: what an offence adds to a player's reputation, what a pardon gives back and what
    lapses after a day. */
module Grievances {
  import opened Numbers

  datatype Kind = Attack | Murder | Theft

  datatype Grievance = Grievance(time: int, playerId: int, rep: int, kind: Kind)

  datatype Stats = Stats(level: int, remort: int, npc: bool)

  /** The low 32 bits of a number, signed. */
  function Int32(x: int): int {
    (x + 0x8000_0000) % 0x1_0000_0000 - 0x8000_0000
  }

  lemma Int32Is(x: int)
    ensures Int32(x) == x <==> -0x8000_0000 <= x < 0x8000_0000
  {
  }

  // ---------- What an offence costs ----------

  /** The difference in strength that counts towards the gain. */
  function Lead(perp: Stats, victim: Stats): int {
    perp.level + perp.remort * 50 - (victim.level + victim.remort * 50)
  }

  function Raised(lead: int, remorts: int, innocent: bool): int {
    var base := 10 + Quot(lead, 5);
    var doubled := if innocent then base * 2 else base;
    if remorts > 0 then doubled + remorts * 9 else doubled
  }

  function Adjusted(lead: int, remorts: int, innocent: bool, criminal: bool): int {
    if criminal then Quot(Raised(lead, remorts, innocent), 4) else Raised(lead, remorts, innocent)
  }

  /** The reputation that killing the victim brings. */
  function PkGain(perp: Stats, victim: Stats, same: bool, innocent: bool, criminal: bool): int {
    if same || perp.npc || victim.npc then 0
    else Max(1, Adjusted(Lead(perp, victim), perp.remort - victim.remort, innocent, criminal))
  }

  function Charge(kind: Kind, gain: int): int {
    match kind
    case Attack => Max(1, gain / 5)
    case Murder => gain
    case Theft => Max(1, gain / 10)
  }

  /** Only a crime between two different players costs reputation, and then it costs some. */
  lemma PkGainPositive(perp: Stats, victim: Stats, same: bool, innocent: bool, criminal: bool)
    ensures var gain := PkGain(perp, victim, same, innocent, criminal);
      gain >= 0 && (gain == 0 <==> same || perp.npc || victim.npc)
  {
  }

  lemma Scaled(a: int, b: int)
    requires b == 4 || b == 5 || b == 10
    ensures a >= 0 ==> b * Quot(a, b) <= a < b * (Quot(a, b) + 1)
    ensures a <= 0 ==> b * (Quot(a, b) - 1) < a <= b * Quot(a, b)
  {
  }

  /** What killing costs: 10 and a fifth of the lead, where a remort counts for 50 levels; twice that for an
      innocent victim; 9 more for each remort ahead; a quarter of it for a criminal victim; and never nothing. */
  lemma PkGainIs(perp: Stats, victim: Stats, innocent: bool, criminal: bool, fifth: int)
    requires !perp.npc && !victim.npc
    requires var lead := perp.level - victim.level + 50 * (perp.remort - victim.remort);
      (lead >= 0 ==> 5 * fifth <= lead < 5 * (fifth + 1)) && (lead < 0 ==> 5 * (fifth - 1) < lead <= 5 * fifth)
    ensures var gain := PkGain(perp, victim, false, innocent, criminal);
      var full := (10 + fifth) * (if innocent then 2 else 1) + 9 * Max(0, perp.remort - victim.remort);
      if !criminal then gain == Max(1, full)
      else gain >= 1 && (gain > 1 ==> 4 * gain <= full) && full < 4 * (gain + 1)
  {
    var lead := Lead(perp, victim);
    Scaled(lead, 5);
    assert Quot(lead, 5) == fifth;
    Scaled(Raised(lead, perp.remort - victim.remort, innocent), 4);
  }

  /** A murder is charged in full, an attack at a fifth and a theft at a tenth, but none of them at nothing. */
  lemma ChargeIs(gain: int)
    requires gain > 0
    ensures Charge(Murder, gain) == gain
    ensures var c := Charge(Attack, gain); c >= 1 && (c > 1 ==> 5 * c <= gain) && gain < 5 * (c + 1)
    ensures var c := Charge(Theft, gain); c >= 1 && (c > 1 ==> 10 * c <= gain) && gain < 10 * (c + 1)
  {
  }

  lemma AdjustedMonotone(lead: int, lead': int, remorts: int, remorts': int, innocent: bool, criminal: bool)
    requires lead <= lead' && remorts <= remorts'
    ensures Adjusted(lead, remorts, innocent, criminal) <= Adjusted(lead', remorts', innocent, criminal)
  {
    QuotMonotone(lead, lead', 5);
    QuotMonotone(Raised(lead, remorts, innocent), Raised(lead', remorts', innocent), 4);
  }

  lemma QuotMonotone(a: int, c: int, b: int)
    requires a <= c && (b == 4 || b == 5)
    ensures Quot(a, b) <= Quot(c, b)
  {
  }

  /** The stronger the offender and the weaker the victim, the more it costs. */
  lemma PkGainMonotone(perp: Stats, perp': Stats, victim: Stats, victim': Stats, innocent: bool, criminal: bool)
    requires !perp.npc && !perp'.npc && !victim.npc && !victim'.npc
    requires perp.level <= perp'.level && perp.remort <= perp'.remort
    requires victim'.level <= victim.level && victim'.remort <= victim.remort
    ensures PkGain(perp, victim, false, innocent, criminal) <= PkGain(perp', victim', false, innocent, criminal)
  {
    AdjustedMonotone(Lead(perp, victim), Lead(perp', victim'), perp.remort - victim.remort,
                     perp'.remort - victim'.remort, innocent, criminal);
  }

  // ---------- Lists of grievances ----------

  /** What the list holds against a player. */
  function Owed(gs: seq<Grievance>, id: int): int {
    if gs == [] then 0 else (if gs[0].playerId == id then gs[0].rep else 0) + Owed(gs[1..], id)
  }

  /** The reputation after a change that cannot take it below 0. */
  function Gained(npc: bool, reputation: int, amount: int): int {
    if npc then reputation else Max(0, reputation + amount)
  }

  /** The reputation of a player after every grievance against it has been given back, one by one. */
  function Refunded(npc: bool, reputation: int, gs: seq<Grievance>, id: int): int
    decreases |gs|
  {
    if gs == [] then reputation
    else Refunded(npc, if gs[0].playerId == id then Gained(npc, reputation, -gs[0].rep) else reputation, gs[1..], id)
  }

  /** The reputation of an account after a change of one of its characters' reputations. */
  function AccountGained(reputation: int, amount: int): int {
    if amount == 0 then reputation else Max(0, reputation + amount)
  }

  function AccountRefunded(reputation: int, gs: seq<Grievance>, id: int): int
    decreases |gs|
  {
    if gs == [] then reputation
    else
      AccountRefunded(if gs[0].playerId == id then AccountGained(reputation, -gs[0].rep) else reputation, gs[1..], id)
  }

  /** The criterion for taking a grievance off a list. */
  datatype Criterion = Against(id: int) | Before(time: int) {
    predicate Meets(g: Grievance) {
      match this
      case Against(id) => g.playerId == id
      case Before(time) => g.time < time
    }
  }

  /** The list without the grievances that meet a criterion. */
  function Removed(gs: seq<Grievance>, c: Criterion): seq<Grievance> {
    if gs == [] then []
    else if c.Meets(gs[0]) then Removed(gs[1..], c)
    else [gs[0]] + Removed(gs[1..], c)
  }

  predicate NoneMeets(gs: seq<Grievance>, c: Criterion) {
    forall i | 0 <= i < |gs| :: !c.Meets(gs[i])
  }

  predicate Positive(gs: seq<Grievance>) {
    forall i | 0 <= i < |gs| :: gs[i].rep > 0
  }

  lemma {:induction false} RemovedMeets(gs: seq<Grievance>, c: Criterion)
    ensures NoneMeets(Removed(gs, c), c)
    decreases |gs|
  {
    if gs != [] {
      RemovedMeets(gs[1..], c);
    }
  }

  lemma {:induction false} NothingRemoved(gs: seq<Grievance>, c: Criterion)
    requires NoneMeets(gs, c)
    ensures Removed(gs, c) == gs
    decreases |gs|
  {
    if gs != [] {
      NothingRemoved(gs[1..], c);
    }
  }

  /** Removing by two criteria does not depend on which comes first. */
  lemma {:induction false} RemovedCommute(gs: seq<Grievance>, c: Criterion, d: Criterion)
    ensures Removed(Removed(gs, c), d) == Removed(Removed(gs, d), c)
    decreases |gs|
  {
    if gs != [] {
      RemovedCommute(gs[1..], c, d);
      assert ([gs[0]] + Removed(gs[1..], c))[1..] == Removed(gs[1..], c);
      assert ([gs[0]] + Removed(gs[1..], d))[1..] == Removed(gs[1..], d);
    }
  }

  lemma {:induction false} RemovedPositive(gs: seq<Grievance>, c: Criterion)
    requires Positive(gs)
    ensures Positive(Removed(gs, c))
    decreases |gs|
  {
    if gs != [] {
      RemovedPositive(gs[1..], c);
    }
  }

  lemma {:induction false} OwedPositive(gs: seq<Grievance>, id: int)
    requires Positive(gs)
    ensures Owed(gs, id) >= 0
    decreases |gs|
  {
    if gs != [] {
      OwedPositive(gs[1..], id);
    }
  }

  /** A pardon clears what is held against one player and leaves what is held against any other. */
  lemma {:induction false} OwedPardoned(gs: seq<Grievance>, id: int, other: int)
    ensures Owed(Removed(gs, Against(id)), other) == if other == id then 0 else Owed(gs, other)
    decreases |gs|
  {
    if gs != [] {
      OwedPardoned(gs[1..], id, other);
      assert ([gs[0]] + Removed(gs[1..], Against(id)))[1..] == Removed(gs[1..], Against(id));
    }
  }

  /** The part of the list that meets a criterion. */
  function Lapsed(gs: seq<Grievance>, c: Criterion): seq<Grievance> {
    if gs == [] then []
    else if c.Meets(gs[0]) then [gs[0]] + Lapsed(gs[1..], c)
    else Lapsed(gs[1..], c)
  }

  lemma {:induction false} OwedLapsed(gs: seq<Grievance>, c: Criterion, id: int)
    ensures Owed(gs, id) == Owed(Removed(gs, c), id) + Owed(Lapsed(gs, c), id)
    ensures Positive(gs) ==> Positive(Lapsed(gs, c))
    decreases |gs|
  {
    if gs != [] {
      OwedLapsed(gs[1..], c, id);
      assert ([gs[0]] + Removed(gs[1..], c))[1..] == Removed(gs[1..], c);
      assert ([gs[0]] + Lapsed(gs[1..], c))[1..] == Lapsed(gs[1..], c);
    }
  }

  /** Giving back one by one comes to giving back the sum, down to 0 at most. */
  lemma {:induction false} RefundedIs(npc: bool, reputation: int, gs: seq<Grievance>, id: int)
    requires Positive(gs) && reputation >= 0
    ensures Refunded(npc, reputation, gs, id) == Gained(npc, reputation, -Owed(gs, id))
    decreases |gs|
  {
    if gs != [] {
      OwedPositive(gs[1..], id);
      RefundedIs(npc, if gs[0].playerId == id then Gained(npc, reputation, -gs[0].rep) else reputation, gs[1..], id);
    }
  }

  /** The same for an account. */
  lemma {:induction false} AccountRefundedIs(reputation: int, gs: seq<Grievance>, id: int)
    requires Positive(gs) && reputation >= 0
    ensures AccountRefunded(reputation, gs, id) == AccountGained(reputation, -Owed(gs, id))
    decreases |gs|
  {
    if gs != [] {
      OwedPositive(gs[1..], id);
      AccountRefundedIs(if gs[0].playerId == id then AccountGained(reputation, -gs[0].rep) else reputation,
                        gs[1..], id);
    }
  }

  // ---------- The ledger of all players ----------

  datatype Account = Account(idnum: int, stats: Stats, reputation: int, grievances: seq<Grievance>)

  /** What happens: perp and victim are positions in the sequence of accounts. */
  datatype Event =
    | Offend(perp: nat, victim: nat, kind: Kind, innocent: bool, criminal: bool, time: int)
    | Pardon(victim: nat, perp: nat)
    | Expire(victim: nat, now: int)

  /** An event among n accounts. */
  predicate InRange(n: nat, e: Event) {
    match e
    case Offend(perp, victim, _, _, _, _) => perp < n && victim < n
    case Pardon(victim, perp) => perp < n && victim < n
    case Expire(victim, _) => victim < n
  }

  predicate AllInRange(n: nat, es: seq<Event>) {
    forall i | 0 <= i < |es| :: InRange(n, es[i])
  }

  /** What an offence is charged at. */
  function Price(accts: seq<Account>, e: Event): int
    requires e.Offend? && InRange(|accts|, e)
  {
    var gain := PkGain(accts[e.perp].stats, accts[e.victim].stats, e.perp == e.victim, e.innocent, e.criminal);
    if gain == 0 then 0 else Charge(e.kind, gain)
  }

  function Cutoff(now: int): Criterion {
    Before(Int32(now - 86400))
  }

  function Apply(accts: seq<Account>, e: Event): (r: seq<Account>)
    requires InRange(|accts|, e)
    ensures |r| == |accts|
  {
    match e
    case Offend(perp, victim, kind, _, _, time) =>
      var price := Price(accts, e);
      if price == 0 then accts
      else
        var p, v := accts[perp], accts[victim];
        accts[perp := p.(reputation := Gained(p.stats.npc, p.reputation, price))]
          [victim := v.(grievances := [Grievance(time, p.idnum, price, kind)] + v.grievances)]
    case Pardon(victim, perp) =>
      var p := accts[perp];
      var refunded := Refunded(p.stats.npc, p.reputation, accts[victim].grievances, p.idnum);
      var paid := accts[perp := p.(reputation := refunded)];
      paid[victim := paid[victim].(grievances := Removed(paid[victim].grievances, Against(Int32(p.idnum))))]
    case Expire(victim, now) =>
      accts[victim := accts[victim].(grievances := Removed(accts[victim].grievances, Cutoff(now)))]
  }

  function Run(accts: seq<Account>, es: seq<Event>): seq<Account>
    requires AllInRange(|accts|, es)
    decreases |es|
  {
    if es == [] then accts else Run(Apply(accts, es[0]), es[1..])
  }

  /** What all lists hold against a player. */
  function AllOwed(accts: seq<Account>, id: int): int {
    if accts == [] then 0 else Owed(accts[0].grievances, id) + AllOwed(accts[1..], id)
  }

  /** Player numbers are distinct and fit 32 bits, every grievance is worth something, and no reputation is
      below what is held against the player. */
  predicate Sound(accts: seq<Account>) {
    && (forall i, j | 0 <= i < j < |accts| :: accts[i].idnum != accts[j].idnum)
    && (forall i | 0 <= i < |accts| :: Positive(accts[i].grievances) && Int32(accts[i].idnum) == accts[i].idnum)
    && (forall i | 0 <= i < |accts| :: accts[i].reputation >= 0)
    && (forall i | 0 <= i < |accts| && !accts[i].stats.npc :: accts[i].reputation >= AllOwed(accts, accts[i].idnum))
  }

  lemma {:induction false} AllOwedAfter(accts: seq<Account>, k: nat, a: Account, id: int)
    requires k < |accts|
    ensures AllOwed(accts[k := a], id) == AllOwed(accts, id) - Owed(accts[k].grievances, id) + Owed(a.grievances, id)
    decreases |accts|
  {
    if k == 0 {
      assert accts[0 := a][1..] == accts[1..];
    } else {
      assert accts[k := a][1..] == accts[1..][k - 1 := a];
      AllOwedAfter(accts[1..], k - 1, a, id);
    }
  }

  lemma {:induction false} AllOwedPart(accts: seq<Account>, k: nat, id: int)
    requires k < |accts| && forall i | 0 <= i < |accts| :: Positive(accts[i].grievances)
    ensures 0 <= Owed(accts[k].grievances, id) <= AllOwed(accts, id)
    decreases |accts|
  {
    OwedPositive(accts[0].grievances, id);
    if |accts| > 1 {
      AllOwedPart(accts[1..], if k == 0 then 0 else k - 1, id);
    }
    OwedPositive(accts[k].grievances, id);
  }

  /** What an event does to what is held against a player by one victim. */
  datatype Tally = Tally(charged: int, refunded: int, lapsed: int)

  function Plus(a: Tally, b: Tally): Tally {
    Tally(a.charged + b.charged, a.refunded + b.refunded, a.lapsed + b.lapsed)
  }

  /** The part of an event that concerns what victim v holds against player k. */
  function Entry(accts: seq<Account>, e: Event, k: nat, v: nat): Tally
    requires InRange(|accts|, e) && k < |accts| && v < |accts|
  {
    match e
    case Offend(perp, victim, _, _, _, _) => Tally(if perp == k && victim == v then Price(accts, e) else 0, 0, 0)
    case Pardon(victim, perp) =>
      Tally(0, if perp == k && victim == v then Owed(accts[v].grievances, accts[k].idnum) else 0, 0)
    case Expire(victim, now) =>
      Tally(0, 0, if victim == v then Owed(Lapsed(accts[v].grievances, Cutoff(now)), accts[k].idnum) else 0)
  }

  /** The same for all victims. */
  function Entries(accts: seq<Account>, e: Event, k: nat): Tally
    requires InRange(|accts|, e) && k < |accts|
  {
    match e
    case Offend(_, victim, _, _, _, _) => Entry(accts, e, k, victim)
    case Pardon(victim, _) => Entry(accts, e, k, victim)
    case Expire(victim, _) => Entry(accts, e, k, victim)
  }

  function RunEntry(accts: seq<Account>, es: seq<Event>, k: nat, v: nat): Tally
    requires AllInRange(|accts|, es) && k < |accts| && v < |accts|
    decreases |es|
  {
    if es == [] then Tally(0, 0, 0)
    else Plus(Entry(accts, es[0], k, v), RunEntry(Apply(accts, es[0]), es[1..], k, v))
  }

  function RunEntries(accts: seq<Account>, es: seq<Event>, k: nat): Tally
    requires AllInRange(|accts|, es) && k < |accts|
    decreases |es|
  {
    if es == [] then Tally(0, 0, 0)
    else Plus(Entries(accts, es[0], k), RunEntries(Apply(accts, es[0]), es[1..], k))
  }

  lemma PricePositive(accts: seq<Account>, e: Event)
    requires e.Offend? && InRange(|accts|, e)
    ensures Price(accts, e) >= 0
    ensures Price(accts, e) > 0 <==> e.perp != e.victim && !accts[e.perp].stats.npc && !accts[e.victim].stats.npc
  {
    PkGainPositive(accts[e.perp].stats, accts[e.victim].stats, e.perp == e.victim, e.innocent, e.criminal);
  }

  /** One event changes what v holds against k by its entry. */
  lemma OwedStep(accts: seq<Account>, e: Event, k: nat, v: nat)
    requires Sound(accts) && InRange(|accts|, e) && k < |accts| && v < |accts|
    ensures var t := Entry(accts, e, k, v);
      Owed(Apply(accts, e)[v].grievances, accts[k].idnum)
        == Owed(accts[v].grievances, accts[k].idnum) + t.charged - t.refunded - t.lapsed
  {
    match e
    case Offend(perp, victim, kind, _, _, time) =>
      if Price(accts, e) != 0 && victim == v {
        var g := Grievance(time, accts[perp].idnum, Price(accts, e), kind);
        assert ([g] + accts[v].grievances)[1..] == accts[v].grievances;
      }
    case Pardon(victim, perp) =>
      if victim == v {
        OwedPardoned(accts[v].grievances, accts[perp].idnum, accts[k].idnum);
      }
    case Expire(victim, now) =>
      if victim == v {
        OwedLapsed(accts[v].grievances, Cutoff(now), accts[k].idnum);
      }
  }

  /** An event other than an expiry changes a reputation and then one list of grievances. */
  lemma TwoChange(accts: seq<Account>, e: Event)
    requires InRange(|accts|, e) && !e.Expire?
    ensures var next := Apply(accts, e);
      next == accts[e.perp := accts[e.perp].(reputation := next[e.perp].reputation)][e.victim := next[e.victim]]
  {
  }

  /** One event changes what all victims hold against k by its entries. */
  lemma AllOwedStep(accts: seq<Account>, e: Event, k: nat)
    requires Sound(accts) && InRange(|accts|, e) && k < |accts|
    ensures var t := Entries(accts, e, k);
      AllOwed(Apply(accts, e), accts[k].idnum) == AllOwed(accts, accts[k].idnum) + t.charged - t.refunded - t.lapsed
  {
    var id := accts[k].idnum;
    var v := e.victim;
    OwedStep(accts, e, k, v);
    var next := Apply(accts, e);
    if e.Expire? {
      AllOwedAfter(accts, v, next[v], id);
    } else {
      var a := accts[e.perp].(reputation := next[e.perp].reputation);
      TwoChange(accts, e);
      AllOwedAfter(accts, e.perp, a, id);
      AllOwedAfter(accts[e.perp := a], v, next[v], id);
    }
  }

  /** One event changes the reputation of player k by what it charges and refunds: nothing is cut off. */
  lemma ReputationStep(accts: seq<Account>, e: Event, k: nat)
    requires Sound(accts) && InRange(|accts|, e) && k < |accts| && !accts[k].stats.npc
    ensures var t := Entries(accts, e, k);
      Apply(accts, e)[k].reputation == accts[k].reputation + t.charged - t.refunded
  {
    match e
    case Offend(_, _, _, _, _, _) =>
      PricePositive(accts, e);
    case Pardon(victim, perp) =>
      if perp == k {
        FullRefund(accts, victim, k);
      }
    case Expire(_, _) =>
  }

  /** A pardon gives back all that it is about. */
  lemma FullRefund(accts: seq<Account>, v: nat, k: nat)
    requires Sound(accts) && v < |accts| && k < |accts| && !accts[k].stats.npc
    ensures Refunded(false, accts[k].reputation, accts[v].grievances, accts[k].idnum)
      == accts[k].reputation - Owed(accts[v].grievances, accts[k].idnum)
  {
    AllOwedPart(accts, v, accts[k].idnum);
    RefundedIs(false, accts[k].reputation, accts[v].grievances, accts[k].idnum);
  }

  lemma ListsPositive(accts: seq<Account>, e: Event, i: nat)
    requires Sound(accts) && InRange(|accts|, e) && i < |accts|
    ensures Positive(Apply(accts, e)[i].grievances)
    ensures Apply(accts, e)[i].idnum == accts[i].idnum && Apply(accts, e)[i].stats == accts[i].stats
    ensures Apply(accts, e)[i].reputation >= 0
  {
    match e
    case Offend(_, _, _, _, _, _) => OffendPositive(accts, e, i);
    case Pardon(_, _) => PardonPositive(accts, e, i);
    case Expire(victim, now) => RemovedPositive(accts[victim].grievances, Cutoff(now));
  }

  lemma OffendPositive(accts: seq<Account>, e: Event, i: nat)
    requires Sound(accts) && InRange(|accts|, e) && i < |accts| && e.Offend?
    ensures Positive(Apply(accts, e)[i].grievances)
    ensures Apply(accts, e)[i].idnum == accts[i].idnum && Apply(accts, e)[i].stats == accts[i].stats
    ensures Apply(accts, e)[i].reputation >= 0
  {
    PricePositive(accts, e);
  }

  lemma PardonPositive(accts: seq<Account>, e: Event, i: nat)
    requires Sound(accts) && InRange(|accts|, e) && i < |accts| && e.Pardon?
    ensures Positive(Apply(accts, e)[i].grievances)
    ensures Apply(accts, e)[i].idnum == accts[i].idnum && Apply(accts, e)[i].stats == accts[i].stats
    ensures Apply(accts, e)[i].reputation >= 0
  {
    var p, gs := accts[e.perp], accts[e.victim].grievances;
    RemovedPositive(gs, Against(Int32(p.idnum)));
    RefundedIs(p.stats.npc, p.reputation, gs, p.idnum);
  }

  lemma LapsedPositive(accts: seq<Account>, e: Event, k: nat)
    requires Sound(accts) && InRange(|accts|, e) && k < |accts|
    ensures Entries(accts, e, k).lapsed >= 0
  {
    if e.Expire? {
      OwedLapsed(accts[e.victim].grievances, Cutoff(e.now), accts[k].idnum);
      OwedPositive(Lapsed(accts[e.victim].grievances, Cutoff(e.now)), accts[k].idnum);
    }
  }

  lemma SoundStep(accts: seq<Account>, e: Event)
    requires Sound(accts) && InRange(|accts|, e)
    ensures Sound(Apply(accts, e))
  {
    var next := Apply(accts, e);
    forall i | 0 <= i < |accts|
      ensures Positive(next[i].grievances) && next[i].idnum == accts[i].idnum && next[i].stats == accts[i].stats
      ensures next[i].reputation >= 0
      ensures !next[i].stats.npc ==> next[i].reputation >= AllOwed(next, next[i].idnum)
    {
      ListsPositive(accts, e, i);
      if !accts[i].stats.npc {
        ReputationStep(accts, e, i);
        AllOwedStep(accts, e, i);
        LapsedPositive(accts, e, i);
      }
    }
  }

  // ---------- Runs ----------

  /** Over any run, what v charged to k equals what v still holds against k, what v gave back and what
      lapsed, and what v held at the start. */
  lemma {:induction false} RunConserves(accts: seq<Account>, es: seq<Event>, k: nat, v: nat)
    requires Sound(accts) && AllInRange(|accts|, es) && k < |accts| && v < |accts|
    ensures var t, end := RunEntry(accts, es, k, v), Run(accts, es);
      && Sound(end) && |end| == |accts| && end[k].idnum == accts[k].idnum
      && Owed(accts[v].grievances, accts[k].idnum) + t.charged
        == Owed(end[v].grievances, accts[k].idnum) + t.refunded + t.lapsed
    decreases |es|
  {
    if es != [] {
      SoundStep(accts, es[0]);
      OwedStep(accts, es[0], k, v);
      ListsPositive(accts, es[0], k);
      RunConserves(Apply(accts, es[0]), es[1..], k, v);
    }
  }

  /** Over any run the reputation of a player moves by exactly what was charged and refunded, and what it
      has beyond what is still held against it grows by exactly what lapsed. */
  lemma {:induction false} RunReputation(accts: seq<Account>, es: seq<Event>, k: nat)
    requires Sound(accts) && AllInRange(|accts|, es) && k < |accts| && !accts[k].stats.npc
    ensures var t, end := RunEntries(accts, es, k), Run(accts, es);
      && |end| == |accts|
      && end[k].reputation == accts[k].reputation + t.charged - t.refunded
      && end[k].reputation - AllOwed(end, accts[k].idnum) ==
          accts[k].reputation - AllOwed(accts, accts[k].idnum) + t.lapsed
    decreases |es|
  {
    if es != [] {
      var next := Apply(accts, es[0]);
      SoundStep(accts, es[0]);
      ReputationStep(accts, es[0], k);
      AllOwedStep(accts, es[0], k);
      ListsPositive(accts, es[0], k);
      RunReputation(next, es[1..], k);
    }
  }

  lemma NothingToPardon(accts: seq<Account>, victim: nat, perp: nat)
    requires perp < |accts| && victim < |accts| && accts[perp].reputation >= 0
    requires Positive(accts[victim].grievances)
      && NoneMeets(accts[victim].grievances, Against(Int32(accts[perp].idnum)))
    requires Owed(accts[victim].grievances, accts[perp].idnum) == 0
    ensures Apply(accts, Pardon(victim, perp)) == accts
  {
    RefundedIs(accts[perp].stats.npc, accts[perp].reputation, accts[victim].grievances, accts[perp].idnum);
    NothingRemoved(accts[victim].grievances, Against(Int32(accts[perp].idnum)));
  }

  /** Pardoning twice is pardoning once. */
  lemma PardonTwice(accts: seq<Account>, victim: nat, perp: nat)
    requires Sound(accts) && perp < |accts| && victim < |accts|
    ensures var once := Apply(accts, Pardon(victim, perp)); Apply(once, Pardon(victim, perp)) == once
  {
    var id := accts[perp].idnum;
    ListsPositive(accts, Pardon(victim, perp), perp);
    ListsPositive(accts, Pardon(victim, perp), victim);
    OwedPardoned(accts[victim].grievances, id, id);
    RemovedMeets(accts[victim].grievances, Against(id));
    NothingToPardon(Apply(accts, Pardon(victim, perp)), victim, perp);
  }

  /** A pardon and an expiry leave the same grievances in either order; expiring first keeps from the
      refund exactly what lapses. */
  lemma PardonExpire(accts: seq<Account>, victim: nat, perp: nat, now: int)
    requires Sound(accts) && perp < |accts| && victim < |accts| && !accts[perp].stats.npc
    ensures var pardonFirst := Apply(Apply(accts, Pardon(victim, perp)), Expire(victim, now));
      var expireFirst := Apply(Apply(accts, Expire(victim, now)), Pardon(victim, perp));
      && pardonFirst[victim].grievances == expireFirst[victim].grievances
      && expireFirst[perp].reputation
        == pardonFirst[perp].reputation + Owed(Lapsed(accts[victim].grievances, Cutoff(now)), accts[perp].idnum)
  {
    var id, gs := accts[perp].idnum, accts[victim].grievances;
    RemovedCommute(gs, Against(id), Cutoff(now));
    OwedLapsed(gs, Cutoff(now), id);
    SoundStep(accts, Expire(victim, now));
    ReputationStep(accts, Pardon(victim, perp), perp);
    ReputationStep(Apply(accts, Expire(victim, now)), Pardon(victim, perp), perp);
  }

  /** Grievances lapse after exactly a day as long as that time fits 32 bits, and only then. */
  lemma LapseAfterADay(now: int)
    ensures (forall g: Grievance :: Cutoff(now).Meets(g) <==> g.time < now - 86400)
      <==> -0x8000_0000 <= now - 86400 < 0x8000_0000
  {
    var c := now - 86400;
    Int32Is(c);
    if Int32(c) != c {
      var g := Grievance(if Int32(c) < c then Int32(c) else c, 0, 0, Attack);
      assert Cutoff(now).Meets(g) != (g.time < c);
    }
  }

  // ---------- Players in the game ----------

  const LVL_AMBASSADOR := 50

  /** What a user's characters have in common. */
  class UserAccount {
    var reputation: int
  }

  class Player {
    const idnum: int
    const stats: Stats
    const account: UserAccount?
    var reputation: int
    var pkills: nat
    var grievances: seq<Grievance>

    function Value(): Account
      reads this
    {
      Account(idnum, stats, reputation, grievances)
    }

    /** Changes of this player's reputation are changes of its account's. */
    predicate Shares() {
      account != null && !stats.npc && stats.level < LVL_AMBASSADOR
    }

    method GainReputation(amount: int)
      modifies this`reputation, account
      ensures reputation == Gained(stats.npc, old(reputation), amount)
      ensures account != null ==>
        account.reputation == if Shares() then AccountGained(old(account.reputation), amount)
          else old(account.reputation)
    {
      if stats.npc {
        return;
      }
      if account != null && stats.level < LVL_AMBASSADOR && amount != 0 {
        account.reputation := account.reputation + amount;
        if account.reputation < 0 {
          account.reputation := 0;
        }
      }
      reputation := reputation + amount;
      if reputation < 0 {
        reputation := 0;
      }
    }

    method CreateGrievance(perp: Player, gain: int, kind: Kind, now: int)
      modifies this`grievances
      ensures grievances == [Grievance(now, perp.idnum, gain, kind)] + old(grievances)
    {
      grievances := [Grievance(now, perp.idnum, gain, kind)] + grievances;
    }

    /** Takes off the list every grievance that meets the criterion. */
    method RemoveIf(c: Criterion)
      modifies this`grievances
      ensures grievances == Removed(old(grievances), c)
    {
      var i := 0;
      ghost var kept: seq<Grievance> := [];
      while i < |grievances|
        invariant i <= |grievances| && kept == grievances[..i]
        invariant kept + Removed(grievances[i..], c) == Removed(old(grievances), c)
        decreases |grievances| - i
      {
        ghost var rest := grievances[i..];
        assert rest[1..] == grievances[i + 1..];
        if c.Meets(grievances[i]) {
          grievances := grievances[..i] + grievances[i + 1..];
          assert grievances[..i] == kept && grievances[i..] == rest[1..];
        } else {
          kept := kept + [grievances[i]];
          i := i + 1;
        }
      }
      assert grievances[i..] == [] && kept == grievances;
    }

    method ExpireOldGrievances(now: int)
      modifies this`grievances
      ensures grievances == Removed(old(grievances), Cutoff(now))
    {
      RemoveIf(Before(Int32(now - 86400)));
    }

    /** Gives back and forgets all that this player holds against another. */
    method PerformPardon(pardoned: Player)
      modifies this`grievances, pardoned`reputation, pardoned.account
      ensures pardoned.reputation ==
        Refunded(pardoned.stats.npc, old(pardoned.reputation), old(grievances), pardoned.idnum)
      ensures pardoned.Shares() ==>
        pardoned.account.reputation ==
            AccountRefunded(old(pardoned.account.reputation), old(grievances), pardoned.idnum)
      ensures grievances == Removed(old(grievances), Against(Int32(pardoned.idnum)))
    {
      ghost var npc, id := pardoned.stats.npc, pardoned.idnum;
      assert grievances[0..] == grievances;
      for i := 0 to |grievances|
        invariant grievances == old(grievances)
        invariant Refunded(npc, pardoned.reputation, grievances[i..], id) ==
          Refunded(npc, old(pardoned.reputation), grievances, id)
        invariant pardoned.Shares() ==>
          AccountRefunded(pardoned.account.reputation, grievances[i..], id) ==
              AccountRefunded(old(pardoned.account.reputation), grievances, id)
      {
        assert grievances[i..][1..] == grievances[i + 1..];
        if grievances[i].playerId == pardoned.idnum {
          pardoned.GainReputation(-grievances[i].rep);
        }
      }
      RemoveIf(Against(Int32(pardoned.idnum)));
    }

    /** An offence of a kind by perp: charged at once and noted by the victim. Nothing comes of an attack or
        a murder in the arena or on someone with a bounty, but a murder outside the arena is counted. */
    method Offended(perp: Player, kind: Kind, arena: bool, bountied: bool, innocent: bool, criminal: bool, now: int)
      modifies this`grievances, perp`reputation, perp`pkills, perp.account
      ensures var gain := PkGain(perp.stats, stats, perp == this, innocent, criminal);
        if gain == 0 || (kind != Theft && (arena || bountied)) then
          perp.reputation == old(perp.reputation) && grievances == old(grievances)
        else
          && perp.reputation == Gained(perp.stats.npc, old(perp.reputation), Charge(kind, gain))
          && grievances == [Grievance(now, perp.idnum, Charge(kind, gain), kind)] + old(grievances)
      ensures var gain := PkGain(perp.stats, stats, perp == this, innocent, criminal);
        var charge := if gain == 0 || (kind != Theft && (arena || bountied)) then 0 else Charge(kind, gain);
        perp.Shares() ==> perp.account.reputation == AccountGained(old(perp.account.reputation), charge)
      ensures perp.pkills == old(perp.pkills) + if kind == Murder && !arena then 1 else 0
    {
      if kind != Theft && arena {
        return;
      }
      if kind == Murder {
        perp.pkills := perp.pkills + 1;
      }
      if kind != Theft && bountied {
        return;
      }
      var gain := PkGain(perp.stats, stats, perp == this, innocent, criminal);
      if gain == 0 {
        return;
      }
      match kind {
        case Attack => gain := Max(1, gain / 5);
        case Theft => gain := Max(1, gain / 10);
        case Murder =>
      }
      perp.GainReputation(gain);
      CreateGrievance(perp, gain, kind, now);
    }
  }

  /** All players of the game, each in a place of its own. */
  class Players {
    const all: seq<Player>

    ghost predicate Valid() {
      forall i, j | 0 <= i < j < |all| :: all[i] != all[j]
    }

    function Accounts(): (r: seq<Account>)
      reads all
      ensures |r| == |all|
    {
      seq(|all|, i requires 0 <= i < |all| reads all => all[i].Value())
    }

    /** What happens to the players in the game is what happens to their accounts. */
    method Happen(e: Event)
      requires Valid() && InRange(|all|, e)
      modifies all, set p | p in all && p.account != null :: p.account
      ensures Accounts() == Apply(old(Accounts()), e)
    {
      match e
      case Offend(perp, victim, kind, innocent, criminal, time) =>
        SamePlayer(perp, victim);
        all[victim].Offended(all[perp], kind, false, false, innocent, criminal, time);
      case Pardon(victim, perp) =>
        all[victim].PerformPardon(all[perp]);
      case Expire(victim, now) =>
        all[victim].ExpireOldGrievances(now);
    }

    lemma SamePlayer(i: nat, j: nat)
      requires Valid() && i < |all| && j < |all|
      ensures all[i] == all[j] <==> i == j
    {
    }
  }
}
