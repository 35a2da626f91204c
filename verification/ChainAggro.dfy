/** Pulling a linked group of creatures. Waking one calls the whole group, which wakes another,
    which calls the whole group again; the recursion ends because each creature wakes once, and
    what it leaves is computed here without recursion. */
module ChainAggro {
  import opened Wrappers

  type UnitId = nat

  datatype AIState = Idle | Following | Attacking | Evade | OtherState

  /** A creature's AI: its threat list, the target it picked and the threat that got it picked.
      `friendly` is whether it is of the target's faction. */
  datatype Creature = Creature(
    unit: UnitId, alive: bool, fleeing: bool, taunted: bool, friendly: bool, state: AIState,
    threat: map<UnitId, int>, nextTarget: Option<UnitId>, highest: int)

  /** Part of the target's threat may go to another unit, which must be alive and near. */
  datatype Redirect = NoRedirect | Redirect(unit: UnitId, part: nat -> nat, reachable: bool, modifier: int)

  /** The unit the group is pulled by. */
  datatype Target = Target(unit: UnitId, alive: bool, gmInvisible: bool, modifier: int, generated: int, redirect: Redirect)

  /** Threat modifiers of -100 or more never make threat negative, and a redirected part is part
      of the whole. */
  ghost predicate Fair(t: Target) {
    && t.generated >= -100
    && (t.redirect.Redirect? ==> t.redirect.unit != t.unit && forall m: nat :: t.redirect.part(m) <= m)
  }

  /** C++ division of integers. */
  function Truncate(a: int, b: nat): int
    requires b > 0
  {
    if a >= 0 then a / b else -((-a) / b)
  }

  /** _CalcThreat without a spell. */
  function CalcThreat(c: Creature, t: Target, damage: nat): (r: nat)
    requires Fair(t)
    ensures c.friendly ==> r == 0
  {
    if c.friendly then 0
    else
      Bounded(damage, t.generated);
      damage + Truncate(damage * t.generated, 100)
  }

  lemma Bounded(damage: nat, generated: int)
    requires generated >= -100
    ensures damage + Truncate(damage * generated, 100) >= 0
  {
    if generated >= 0 {
      assert damage * generated >= 0;
    } else {
      assert damage * (-generated) <= damage * 100;
      assert damage * generated == -(damage * (-generated));
    }
  }

  /** A friendly creature's threat does not move; a hostile one's moves by the damage and `generated`
      percent of it, counted in hundredths, where the part of a point that is left over is dropped
      towards the damage. Without a modifier it is the damage. */
  lemma ThreatIs(c: Creature, t: Target, damage: nat)
    requires Fair(t)
    ensures c.friendly ==> CalcThreat(c, t, damage) == 0
    ensures !c.friendly ==> forall r: nat :: r == CalcThreat(c, t, damage) <==>
      if t.generated >= 0 then 100 * r <= 100 * damage + damage * t.generated < 100 * r + 100
      else 100 * damage + damage * t.generated <= 100 * r < 100 * damage + damage * t.generated + 100
    ensures !c.friendly && t.generated == 0 ==> CalcThreat(c, t, damage) == damage
    ensures !c.friendly && t.generated >= 0 ==> CalcThreat(c, t, damage) >= damage
    ensures !c.friendly && t.generated <= 0 ==> CalcThreat(c, t, damage) <= damage
  {
    var m := damage * t.generated;
    Bounded(damage, t.generated);
    if t.generated >= 0 { assert m >= 0; } else { assert m == -(damage * (-t.generated)) && damage * (-t.generated) >= 0; }
    assert !c.friendly ==> CalcThreat(c, t, damage) == damage + Truncate(m, 100);
  }

  /** More damage never makes less threat. */
  lemma ThreatGrows(c: Creature, t: Target, damage: nat, more: nat)
    requires Fair(t) && damage <= more
    ensures CalcThreat(c, t, damage) <= CalcThreat(c, t, more)
  {
    ThreatIs(c, t, damage);
    ThreatIs(c, t, more);
    GrowsBy(damage, more, t.generated);
    hide CalcThreat;
    var r, q := CalcThreat(c, t, damage), CalcThreat(c, t, more);
    InOrder(r, q, 100 * damage + damage * t.generated, 100 * more + more * t.generated);
    assert !c.friendly ==> r == CalcThreat(c, t, damage) && q == CalcThreat(c, t, more);
  }

  lemma GrowsBy(damage: nat, more: nat, generated: int)
    requires generated >= -100 && damage <= more
    ensures 100 * damage + damage * generated <= 100 * more + more * generated
  {
    assert (more - damage) * (100 + generated) >= 0;
    assert (more - damage) * (100 + generated) == 100 * more + more * generated - 100 * damage - damage * generated;
  }

  lemma InOrder(r: nat, q: nat, x: int, y: int)
    requires x <= y
    ensures 100 * r <= x && y < 100 * q + 100 ==> r <= q
    ensures 100 * r < x + 100 && y <= 100 * q ==> r <= q
  {
  }

  // ---- One creature ----------------------------------------------------------------------

  /** A unit's threat grows, and the creature may turn to it. */
  function AddThreat(c: Creature, unit: UnitId, modifier: int, mod: int): Creature {
    var now := (if unit in c.threat then c.threat[unit] else 0) + mod;
    var added := c.(threat := c.threat[unit := now]);
    if now + modifier > c.highest && !c.taunted then added.(highest := now + modifier, nextTarget := Some(unit)) else added
  }

  function Part(t: Target, mod: nat): (p: nat)
    requires Fair(t)
    ensures p <= mod
  {
    if t.redirect.Redirect? && mod > 0 then t.redirect.part(mod) else 0
  }

  /** modThreatByPtr for a change that is not negative. */
  function Hit(c: Creature, t: Target, mod: nat): Creature
    requires Fair(t)
  {
    var part := Part(t, mod);
    var shared := if part > 0 && t.redirect.reachable then AddThreat(c, t.redirect.unit, t.redirect.modifier, part) else c;
    AddThreat(shared, t.unit, t.modifier, mod - part)
  }

  function Hits(c: Creature, t: Target, mod: nat, n: nat): Creature
    requires Fair(t)
  {
    if n == 0 then c else Hit(Hits(c, t, mod, n - 1), t, mod)
  }

  predicate Asleep(c: Creature) { c.state.Idle? || c.state.Following? }

  /** A creature that answers an attack by the target. */
  predicate Reacts(c: Creature, t: Target) {
    c.alive && t.alive && !c.state.Evade? && !c.fleeing && c.unit != t.unit
  }

  /** WipeTargetList, then entering combat. */
  function Wake(c: Creature): Creature {
    c.(threat := map[], nextTarget := None, highest := 0, state := Attacking)
  }

  // ---- The recursion ---------------------------------------------------------------------

  predicate Wakes(c: Creature, t: Target) { Reacts(c, t) && Asleep(c) }

  /** How many will wake: what bounds the recursion. */
  function Sleepers(w: seq<Creature>, t: Target): nat {
    if w == [] then 0 else Sleepers(w[1..], t) + if Wakes(w[0], t) then 1 else 0
  }

  lemma {:induction false} SleepersUpdate(w: seq<Creature>, t: Target, i: nat, c: Creature)
    requires i < |w|
    ensures Sleepers(w[i := c], t) + (if Wakes(w[i], t) then 1 else 0) == Sleepers(w, t) + (if Wakes(c, t) then 1 else 0)
  {
    if i == 0 {
      assert w[0 := c][1..] == w[1..];
    } else {
      assert w[i := c][1..] == w[1..][i - 1 := c];
      SleepersUpdate(w[1..], t, i - 1, c);
    }
  }

  lemma HitSleeps(c: Creature, t: Target, mod: nat)
    requires Fair(t)
    ensures Wakes(Hit(c, t, mod), t) == Wakes(c, t)
    ensures var r := Hit(c, t, mod);
            r.state == c.state && r.alive == c.alive && r.fleeing == c.fleeing && r.unit == c.unit && r.friendly == c.friendly
            && r.taunted == c.taunted
  {
  }

  /** AttackReaction of member `i`. */
  function React(w: seq<Creature>, t: Target, i: nat, damage: nat): (r: seq<Creature>)
    requires Fair(t) && i < |w|
    ensures |r| == |w| && Sleepers(r, t) <= Sleepers(w, t)
    decreases Sleepers(w, t), 0
  {
    if !Reacts(w[i], t) then w
    else
      SleepersUpdate(w, t, i, Wake(w[i]));
      var called := if !Asleep(w[i]) then w else EnterCombat(w[i := Wake(w[i])], t);
      var mod := CalcThreat(called[i], t, damage);
      HitSleeps(called[i], t, mod);
      SleepersUpdate(called, t, i, Hit(called[i], t, mod));
      called[i := Hit(called[i], t, mod)]
  }

  /** ChainAggroEntity's EventEnterCombat. */
  function EnterCombat(w: seq<Creature>, t: Target): (r: seq<Creature>)
    requires Fair(t)
    ensures |r| == |w| && Sleepers(r, t) <= Sleepers(w, t)
    decreases Sleepers(w, t), 2, |w|
  {
    if t.gmInvisible then w else Chain(w, t, 0)
  }

  /** Its loop, from member `j` on. */
  function Chain(w: seq<Creature>, t: Target, j: nat): (r: seq<Creature>)
    requires Fair(t) && j <= |w|
    ensures |r| == |w| && Sleepers(r, t) <= Sleepers(w, t)
    decreases Sleepers(w, t), 1, |w| - j
  {
    if j == |w| then w
    else if !w[j].alive then Chain(w, t, j + 1)
    else Chain(React(w, t, j, 1), t, j + 1)
  }

  // ---- What it leaves --------------------------------------------------------------------

  function AfterCall(c: Creature, t: Target, n: nat): Creature
    requires Fair(t)
  {
    if !Reacts(c, t) then c else Hits(if Asleep(c) then Wake(c) else c, t, CalcThreat(c, t, 1), n)
  }

  /** Every member that reacts wakes and is hit once for each member woken, and once more from
      position `j` on. */
  function Called(w: seq<Creature>, t: Target, j: nat): (r: seq<Creature>)
    requires Fair(t)
    ensures |r| == |w|
  {
    seq(|w|, m requires 0 <= m < |w| => AfterCall(w[m], t, Sleepers(w, t) + if m >= j then 1 else 0))
  }

  lemma {:induction false} NoSleepers(w: seq<Creature>, t: Target)
    ensures Sleepers(w, t) == 0 <==> forall m :: 0 <= m < |w| ==> !Wakes(w[m], t)
  {
    if w != [] {
      NoSleepers(w[1..], t);
      assert forall m :: 0 < m < |w| ==> w[m] == w[1..][m - 1];
    }
  }

  lemma {:induction false} HitsSleep(c: Creature, t: Target, mod: nat, n: nat)
    requires Fair(t)
    ensures var r := Hits(c, t, mod, n);
            r.state == c.state && r.alive == c.alive && r.fleeing == c.fleeing && r.unit == c.unit && r.friendly == c.friendly
  {
    if n > 0 {
      HitsSleep(c, t, mod, n - 1);
      HitSleeps(Hits(c, t, mod, n - 1), t, mod);
      hide Hit;
    }
  }

  lemma {:induction false} HitsSplit(c: Creature, t: Target, mod: nat, n: nat, k: nat)
    requires Fair(t)
    ensures Hits(Hits(c, t, mod, n), t, mod, k) == Hits(c, t, mod, n + k)
  {
    hide Hit;
    if k > 0 { HitsSplit(c, t, mod, n, k - 1); }
  }

  lemma CallTwice(c: Creature, t: Target, n: nat, k: nat)
    requires Fair(t)
    ensures AfterCall(AfterCall(c, t, n), t, k) == AfterCall(c, t, n + k)
    ensures !Wakes(AfterCall(c, t, n), t) && Reacts(AfterCall(c, t, n), t) == Reacts(c, t)
    ensures Reacts(c, t) ==> Hit(AfterCall(c, t, n), t, CalcThreat(c, t, 1)) == AfterCall(c, t, n + 1)
    ensures AfterCall(c, t, n).friendly == c.friendly
  {
    var mod := CalcThreat(c, t, 1);
    HitsSleep(if Asleep(c) then Wake(c) else c, t, mod, n);
    HitsSplit(if Asleep(c) then Wake(c) else c, t, mod, n, k);
  }

  lemma Awake(c: Creature, t: Target)
    requires Fair(t) && !Wakes(c, t)
    ensures AfterCall(c, t, 0) == c
  {
  }

  /** The member at `j` does not react: the loop passes over it. */
  lemma PassOver(w: seq<Creature>, t: Target, j: nat)
    requires Fair(t) && j < |w| && !Reacts(w[j], t)
    ensures Called(w, t, j) == Called(w, t, j + 1)
  {
  }

  /** The member at `j` is awake already. */
  lemma HitAwake(w: seq<Creature>, t: Target, j: nat)
    requires Fair(t) && j < |w| && Reacts(w[j], t) && !Asleep(w[j])
    ensures var r := w[j := AfterCall(w[j], t, 1)];
            Sleepers(r, t) == Sleepers(w, t) && Called(r, t, j + 1) == Called(w, t, j)
  {
    hide AfterCall, Sleepers;
    var r := w[j := AfterCall(w[j], t, 1)];
    CallTwice(w[j], t, 1, Sleepers(w, t));
    SleepersUpdate(w, t, j, AfterCall(w[j], t, 1));
    forall m | 0 <= m < |w| ensures Called(r, t, j + 1)[m] == Called(w, t, j)[m] { }
  }

  /** The member at `j` wakes and calls everyone; the rest of the loop hits the others once more. */
  lemma HitAsleep(w: seq<Creature>, t: Target, j: nat, r: seq<Creature>)
    requires Fair(t) && j < |w| && |r| == |w| && Wakes(w[j], t)
    requires forall m :: 0 <= m < |w| && m != j ==> r[m] == AfterCall(w[m], t, Sleepers(w, t))
    requires r[j] == AfterCall(w[j], t, Sleepers(w, t) + 1)
    ensures Sleepers(r, t) == 0 && Called(r, t, j + 1) == Called(w, t, j)
  {
    hide AfterCall, Sleepers;
    var k := Sleepers(w, t);
    forall m | 0 <= m < |w| ensures !Wakes(r[m], t) {
      CallTwice(w[m], t, if m == j then k + 1 else k, 0);
    }
    NoSleepers(r, t);
    forall m | 0 <= m < |w| ensures Called(r, t, j + 1)[m] == Called(w, t, j)[m] {
      hide Wakes, Reacts;
      CalledAgain(w[m], t, k, j, m);
    }
  }

  lemma CalledAgain(c: Creature, t: Target, k: nat, j: nat, m: nat)
    requires Fair(t)
    ensures AfterCall(AfterCall(c, t, if m == j then k + 1 else k), t, if m >= j + 1 then 1 else 0)
         == AfterCall(c, t, k + if m >= j then 1 else 0)
  {
    hide AfterCall;
    CallTwice(c, t, if m == j then k + 1 else k, if m > j then 1 else 0);
  }

  /** Waking member `j` and calling everyone. */
  lemma WakeAll(w: seq<Creature>, t: Target, j: nat, m: nat)
    requires Fair(t) && j < |w| && Wakes(w[j], t) && m < |w|
    ensures var w1 := w[j := Wake(w[j])];
            Sleepers(w1, t) + 1 == Sleepers(w, t) && Called(w1, t, 0)[m] == AfterCall(w[m], t, Sleepers(w, t))
  {
    hide Sleepers;
    SleepersUpdate(w, t, j, Wake(w[j]));
  }

  /** AttackReaction of a sleeping member, given what its call of the group leaves. */
  lemma PulledAsleep(w: seq<Creature>, t: Target, j: nat, damage: nat)
    requires Fair(t) && j < |w| && Wakes(w[j], t) && !t.gmInvisible
    requires Chain(w[j := Wake(w[j])], t, 0) == Called(w[j := Wake(w[j])], t, 0)
    ensures forall m :: 0 <= m < |w| && m != j ==> React(w, t, j, damage)[m] == AfterCall(w[m], t, Sleepers(w, t))
    ensures React(w, t, j, damage)[j] == Hit(AfterCall(w[j], t, Sleepers(w, t)), t, CalcThreat(w[j], t, damage))
  {
    hide Sleepers, Called, AfterCall, Chain, CalcThreat, Hit;
    var called := Called(w[j := Wake(w[j])], t, 0);
    forall m | 0 <= m < |w| ensures called[m] == AfterCall(w[m], t, Sleepers(w, t)) { WakeAll(w, t, j, m); }
    CallTwice(w[j], t, Sleepers(w, t), 0);
    SameThreat(called[j], w[j], t, damage);
  }

  lemma SameThreat(c: Creature, d: Creature, t: Target, damage: nat)
    requires Fair(t) && c.friendly == d.friendly
    ensures CalcThreat(c, t, damage) == CalcThreat(d, t, damage)
  {
  }

  /** Main theorem: the recursion comes to the simple form. */
  lemma {:induction false} ChainIsCalled(w: seq<Creature>, t: Target, j: nat)
    requires Fair(t) && j <= |w| && !t.gmInvisible
    requires forall m :: 0 <= m < j ==> !Wakes(w[m], t)
    ensures Chain(w, t, j) == Called(w, t, j)
    decreases Sleepers(w, t), |w| - j
  {
    hide Sleepers, Called, AfterCall;
    if j == |w| {
      NoSleepers(w, t);
      CalledNone(w, t);
    } else if !Reacts(w[j], t) {
      PassOver(w, t, j);
      ChainIsCalled(w, t, j + 1);
    } else {
      CallTwice(w[j], t, 0, 0);
      if Asleep(w[j]) {
        var w1 := w[j := Wake(w[j])];
        WakeAll(w, t, j, j);
        ChainIsCalled(w1, t, 0);
        var r := React(w, t, j, 1);
        PulledAsleep(w, t, j, 1);
        CallTwice(w[j], t, Sleepers(w, t), 0);
        HitAsleep(w, t, j, r);
        CalledAwake(w, t, r, j);
        ChainIsCalled(r, t, j + 1);
      } else {
        Awake(w[j], t);
        HitAwake(w, t, j);
        CallTwice(w[j], t, 1, 0);
        ChainIsCalled(w[j := AfterCall(w[j], t, 1)], t, j + 1);
      }
    }
  }

  lemma CalledNone(w: seq<Creature>, t: Target)
    requires Fair(t) && forall m :: 0 <= m < |w| ==> !Wakes(w[m], t)
    ensures Called(w, t, |w|) == w
  {
    NoSleepers(w, t);
  }

  lemma CalledAwake(w: seq<Creature>, t: Target, r: seq<Creature>, j: nat)
    requires Fair(t) && Sleepers(r, t) == 0
    ensures forall m :: 0 <= m < |r| ==> !Wakes(r[m], t)
  {
    NoSleepers(r, t);
  }

  /** AttackReaction, in every case. */
  lemma Pull(w: seq<Creature>, t: Target, i: nat, damage: nat)
    requires Fair(t) && i < |w| && Reacts(w[i], t)
    ensures var (r, mod) := (React(w, t, i, damage), CalcThreat(w[i], t, damage));
            if !Asleep(w[i]) then r == w[i := Hit(w[i], t, mod)]
            else if t.gmInvisible then r == w[i := Hit(Wake(w[i]), t, mod)]
            else |r| == |w| && r[i] == Hit(AfterCall(w[i], t, Sleepers(w, t)), t, mod)
                 && forall m :: 0 <= m < |w| && m != i ==> r[m] == AfterCall(w[m], t, Sleepers(w, t))
  {
    SameThreat(Wake(w[i]), w[i], t, damage);
    if Asleep(w[i]) && !t.gmInvisible {
      ChainIsCalled(w[i := Wake(w[i])], t, 0);
      PulledAsleep(w, t, i, damage);
    }
  }

  // ---- What a pull leaves, in numbers ----------------------------------------------------

  /** Those that will wake are the living that sleep, neither flee nor are the target. */
  lemma {:induction false} SleepersCount(w: seq<Creature>, t: Target, asleep: set<nat>)
    requires forall m :: m in asleep <==>
      0 <= m < |w| && w[m].alive && t.alive && !w[m].fleeing && w[m].unit != t.unit && (w[m].state == Idle || w[m].state == Following)
    ensures Sleepers(w, t) == |asleep|
    decreases |asleep|
  {
    if asleep == {} {
      NoSleepers(w, t);
    } else {
      var m :| m in asleep;
      var dead := w[m].(alive := false);
      assert Wakes(w[m], t) && !Wakes(dead, t);
      SleepersUpdate(w, t, m, dead);
      SleepersCount(w[m := dead], t, asleep - {m});
    }
  }

  /** The threat of a unit on a creature's list, 0 when it is not on the list. */
  function ThreatOf(c: Creature, unit: UnitId): int { if unit in c.threat then c.threat[unit] else 0 }

  /** What of an amount goes to a unit: the target has it less the part that is redirected, and the
      unit it is redirected to has that part if it can be reached. */
  function Share(t: Target, unit: UnitId, amount: nat): int
    requires Fair(t)
  {
    var part := if t.redirect.Redirect? && amount > 0 then t.redirect.part(amount) else 0;
    if unit == t.unit then amount - part
    else if t.redirect.Redirect? && unit == t.redirect.unit && t.redirect.reachable then part
    else 0
  }

  lemma {:induction false} HitsThreat(c: Creature, t: Target, mod: nat, n: nat, unit: UnitId)
    requires Fair(t)
    ensures ThreatOf(Hits(c, t, mod, n), unit) == ThreatOf(c, unit) + n * Share(t, unit, mod)
    ensures n > 0 ==> t.unit in Hits(c, t, mod, n).threat
  {
    if n > 0 {
      HitsThreat(c, t, mod, n - 1, unit);
      HitThreat(Hits(c, t, mod, n - 1), t, mod, unit);
      hide Hit, Share;
      assert (n - 1) * Share(t, unit, mod) + Share(t, unit, mod) == n * Share(t, unit, mod);
    }
  }

  lemma HitThreat(c: Creature, t: Target, mod: nat, unit: UnitId)
    requires Fair(t)
    ensures t.unit in Hit(c, t, mod).threat
    ensures ThreatOf(Hit(c, t, mod), unit) == ThreatOf(c, unit) + Share(t, unit, mod)
  {
    var part := Part(t, mod);
    var shared := if part > 0 && t.redirect.reachable then AddThreat(c, t.redirect.unit, t.redirect.modifier, part) else c;
    if part > 0 && t.redirect.reachable { AddedThreat(c, t.redirect.unit, t.redirect.modifier, part, unit); }
    AddedThreat(shared, t.unit, t.modifier, mod - part, unit);
    hide AddThreat, ThreatOf;
  }

  lemma AddedThreat(c: Creature, to: UnitId, modifier: int, mod: int, unit: UnitId)
    ensures to in AddThreat(c, to, modifier, mod).threat
    ensures ThreatOf(AddThreat(c, to, modifier, mod), unit) == ThreatOf(c, unit) + if unit == to then mod else 0
  {
  }

  /** Only a living creature that neither evades nor flees answers, and only a living other one. */
  lemma ReactsIff(w: seq<Creature>, t: Target, i: nat, damage: nat)
    requires Fair(t) && i < |w|
    ensures React(w, t, i, damage) != w ==>
      w[i].alive && t.alive && w[i].state != Evade && !w[i].fleeing && w[i].unit != t.unit
    ensures w[i].alive && t.alive && w[i].state != Evade && !w[i].fleeing && w[i].unit != t.unit ==>
      t.unit in React(w, t, i, damage)[i].threat
  {
    if Reacts(w[i], t) {
      Pull(w, t, i, damage);
      hide Sleepers, AfterCall, Hit;
      HitThreat(w[i], t, CalcThreat(w[i], t, damage), t.unit);
      HitThreat(Wake(w[i]), t, CalcThreat(w[i], t, damage), t.unit);
      HitThreat(AfterCall(w[i], t, Sleepers(w, t)), t, CalcThreat(w[i], t, damage), t.unit);
    }
  }

  /** After a pull every member that reacts has the target on its list, those that slept are
      attacking, and each holds one call's threat for each member woken on top of what it had,
      or of nothing if it slept; the pulled member also holds the threat of the attack itself. The
      threat `one` of a call and `hit` of the attack are those of 1 and of `damage` points. */
  lemma AfterPull(w: seq<Creature>, t: Target, i: nat, damage: nat, m: nat, unit: UnitId, asleep: set<nat>, one: nat, hit: nat)
    requires Fair(t) && i < |w| && m < |w| && !t.gmInvisible && i in asleep
    requires forall j :: j in asleep <==>
      0 <= j < |w| && w[j].alive && t.alive && !w[j].fleeing && w[j].unit != t.unit && (w[j].state == Idle || w[j].state == Following)
    requires w[m].alive && t.alive && w[m].state != Evade && !w[m].fleeing && w[m].unit != t.unit
    requires w[m].friendly ==> one == 0 == hit
    requires !w[m].friendly && t.generated >= 0 ==>
      100 * one <= 100 + t.generated < 100 * one + 100 && 100 * hit <= 100 * damage + damage * t.generated < 100 * hit + 100
    requires !w[m].friendly && t.generated < 0 ==>
      100 + t.generated <= 100 * one < 200 + t.generated && 100 * damage + damage * t.generated <= 100 * hit < 100 * damage + damage * t.generated + 100
    ensures var r := React(w, t, i, damage)[m];
            && t.unit in r.threat
            && r.state == (if m in asleep then Attacking else w[m].state)
            && ThreatOf(r, unit) == (if m in asleep then 0 else ThreatOf(w[m], unit))
                 + |asleep| * Share(t, unit, one) + (if m == i then Share(t, unit, hit) else 0)
  {
    SleepersCount(w, t, asleep);
    ThreatIs(w[m], t, 1);
    ThreatIs(w[m], t, damage);
    assert one == CalcThreat(w[m], t, 1) && hit == CalcThreat(w[m], t, damage);
    assert Asleep(w[m]) <==> m in asleep;
    assert Wakes(w[i], t) && Reacts(w[m], t);
    PullThreat(w, t, i, damage, m, unit);
    hide React, Sleepers, CalcThreat, Asleep, Share;
  }

  lemma PullThreat(w: seq<Creature>, t: Target, i: nat, damage: nat, m: nat, unit: UnitId)
    requires Fair(t) && i < |w| && m < |w| && Wakes(w[i], t) && !t.gmInvisible && Reacts(w[m], t)
    ensures var r := React(w, t, i, damage)[m];
            && t.unit in r.threat
            && r.state == (if Asleep(w[m]) then Attacking else w[m].state)
            && ThreatOf(r, unit) == (if Asleep(w[m]) then 0 else ThreatOf(w[m], unit))
                 + Sleepers(w, t) * Share(t, unit, CalcThreat(w[m], t, 1))
                 + (if m == i then Share(t, unit, CalcThreat(w[i], t, damage)) else 0)
  {
    Pull(w, t, i, damage);
    NoSleepers(w, t);
    var (c, k, one) := (if Asleep(w[m]) then Wake(w[m]) else w[m], Sleepers(w, t), CalcThreat(w[m], t, 1));
    HitsThreat(c, t, one, k, unit);
    HitsSleep(c, t, one, k);
    hide Sleepers, CalcThreat, Hit, Hits, Share;
    assert AfterCall(w[m], t, k) == Hits(c, t, one, k);
    if m == i {
      HitThreat(Hits(c, t, one, k), t, CalcThreat(w[i], t, damage), unit);
      HitSleeps(Hits(c, t, one, k), t, CalcThreat(w[i], t, damage));
    }
  }

  /** Only the target is hated, and it is turned to once its threat and modifier exceed zero. */
  ghost predicate TurnedTo(c: Creature, t: Target) {
    && (forall unit :: unit in c.threat ==> unit == t.unit)
    && var most := ThreatOf(c, t.unit) + t.modifier;
       if t.unit in c.threat && most > 0 && !c.taunted then c.nextTarget == Some(t.unit) && c.highest == most
       else c.nextTarget == None && c.highest == 0
  }

  lemma {:induction false} HitsTurn(c: Creature, t: Target, mod: nat, n: nat)
    requires Fair(t) && t.redirect == NoRedirect && TurnedTo(c, t)
    ensures TurnedTo(Hits(c, t, mod, n), t)
  {
    if n > 0 {
      HitsTurn(c, t, mod, n - 1);
      HitTurns(Hits(c, t, mod, n - 1), t, mod);
      hide Hit, TurnedTo;
    }
  }

  lemma HitTurns(c: Creature, t: Target, mod: nat)
    requires Fair(t) && t.redirect == NoRedirect && TurnedTo(c, t)
    ensures TurnedTo(Hit(c, t, mod), t)
  {
  }

  /** A member that slept turns to the target that pulled the group, unless it is taunted, and hates
      nobody else; that is, if the threat it has and the target's modifier exceed zero. */
  lemma SleepersTurn(w: seq<Creature>, t: Target, i: nat, damage: nat, m: nat)
    requires Fair(t) && i < |w| && m < |w| && Wakes(w[i], t) && !t.gmInvisible && Wakes(w[m], t) && t.redirect == NoRedirect
    ensures TurnedTo(React(w, t, i, damage)[m], t)
  {
    Pull(w, t, i, damage);
    var one := CalcThreat(w[m], t, 1);
    assert TurnedTo(Wake(w[m]), t);
    HitsTurn(Wake(w[m]), t, one, Sleepers(w, t));
    hide Sleepers, CalcThreat, Hit, Hits, TurnedTo;
    assert AfterCall(w[m], t, Sleepers(w, t)) == Hits(Wake(w[m]), t, one, Sleepers(w, t));
    if m == i { HitTurns(Hits(Wake(w[m]), t, one, Sleepers(w, t)), t, CalcThreat(w[i], t, damage)); }
  }
}
