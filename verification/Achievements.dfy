/** Achievements: completing one may complete those that require it, and so on. */
module Achievements {

  type Id = nat
  type CriterionId = nat

  datatype Faction = Anyone | AllianceOnly | HordeOnly

  datatype Rule = KillCreature(creature: nat) | CompleteAchievement(linked: Id)

  /** A criterion and the achievement that lists it; `required` 0 stands for 1. */
  datatype Criterion = Criterion(
    referred: Id, rule: Rule, required: nat, timeLimit: nat, completeOne: bool, notInGroup: bool, noDeath: bool)

  datatype Achievement = Achievement(
    criteria: seq<CriterionId>, statistic: bool, faction: Faction, realmFirst: bool)

  /** The client's tables; `linking` and `killing` list the criteria of the two types. */
  datatype Table = Table(
    achievements: map<Id, Achievement>, criteria: map<CriterionId, Criterion>, linking: seq<CriterionId>, killing: seq<CriterionId>)
  {
    ghost predicate Valid() {
      && (forall a, i :: a in achievements && 0 <= i < |achievements[a].criteria| ==> achievements[a].criteria[i] in criteria)
      && (forall i :: 0 <= i < |linking| ==> linking[i] in criteria)
      && (forall i :: 0 <= i < |killing| ==> killing[i] in criteria)
    }
  }

  type Counter = x: nat | x < 0x1_0000_0000

  datatype Progress = Progress(completed: bool, counters: seq<Counter>, timeLast: nat)

  /** One player; `earned` records every achievement in the order it was earned. */
  datatype Player = Player(gm: bool, team: nat, inGroup: bool, data: map<Id, Progress>, earned: seq<Id>)

  /** A player and the realm's set of completed Realm First achievements. */
  datatype Session = Session(player: Player, firsts: set<Id>)

  ghost predicate Wf(t: Table, s: Session) {
    && t.Valid()
    && forall a :: a in s.player.data ==> a in t.achievements && |s.player.data[a].counters| == |t.achievements[a].criteria|
  }

  function Done(s: Session): set<Id> {
    set a | a in s.player.data && s.player.data[a].completed
  }

  // ---- The conditions --------------------------------------------------------------------

  predicate Fails(t: Table, s: Session, a: Id, i: nat)
    requires Wf(t, s) && a in s.player.data && i < |t.achievements[a].criteria|
  {
    var c, d := t.criteria[t.achievements[a].criteria[i]], s.player.data[a];
    || (c.timeLimit != 0 && c.timeLimit < d.timeLast)
    || d.counters[i] < (if c.required != 0 then c.required else 1)
    || (t.achievements[a].faction == AllianceOnly && s.player.team == 1)
    || (t.achievements[a].faction == HordeOnly && s.player.team == 0)
  }

  predicate Optional(t: Table, s: Session, a: Id, i: nat)
    requires Wf(t, s) && a in s.player.data && i < |t.achievements[a].criteria|
  {
    t.criteria[t.achievements[a].criteria[i]].completeOne
  }

  predicate Grouped(t: Table, s: Session, a: Id, i: nat)
    requires Wf(t, s) && a in s.player.data && i < |t.achievements[a].criteria|
  {
    t.criteria[t.achievements[a].criteria[i]].notInGroup && s.player.inGroup
  }

  /** What CanCompleteAchievement decides: every counter has moved, every criterion holds or is
      optional, and if an optional one does not hold then another one does. */
  ghost predicate CanComplete(t: Table, s: Session, a: Id)
    requires Wf(t, s) && a in s.player.data
  {
    var n := |t.achievements[a].criteria|;
    && !s.player.gm && !s.player.data[a].completed && !t.achievements[a].statistic && a !in s.firsts
    && (forall i :: 0 <= i < n ==> s.player.data[a].counters[i] != 0)
    && (forall i :: 0 <= i < n ==> !Grouped(t, s, a, i))
    && (forall i :: 0 <= i < n && Fails(t, s, a, i) ==> Optional(t, s, a, i))
    && ((exists i :: 0 <= i < n && Fails(t, s, a, i)) ==> exists i :: 0 <= i < n && !Fails(t, s, a, i) && Optional(t, s, a, i))
  }

  /** The same said once for the achievement: the loop judges time and faction at each criterion, yet
      it comes to this. Every counter has moved and none forbids the player's group; the faction
      fits, unless there is no criterion to ask; each criterion that must be met has its count in
      time, and if some may replace one another then one of these has. */
  lemma CanCompleteMeans(t: Table, s: Session, a: Id)
    requires Wf(t, s) && a in s.player.data
    ensures var (p, ach, d) := (s.player, t.achievements[a], s.player.data[a]);
            var n := |ach.criteria|;
            CanComplete(t, s, a) <==>
            && !p.gm && !d.completed && !ach.statistic && a !in s.firsts
            && (forall i :: 0 <= i < n ==> d.counters[i] > 0)
            && (forall i :: 0 <= i < n && t.criteria[ach.criteria[i]].notInGroup ==> !p.inGroup)
            && (n > 0 ==> !(ach.faction == AllianceOnly && p.team == 1) && !(ach.faction == HordeOnly && p.team == 0))
            && (forall i :: 0 <= i < n && !t.criteria[ach.criteria[i]].completeOne ==>
                  var c := t.criteria[ach.criteria[i]];
                  d.counters[i] >= c.required && (c.timeLimit == 0 || c.timeLimit >= d.timeLast))
            && ((exists i :: 0 <= i < n && t.criteria[ach.criteria[i]].completeOne) ==>
                exists i :: 0 <= i < n && t.criteria[ach.criteria[i]].completeOne &&
                  var c := t.criteria[ach.criteria[i]];
                  d.counters[i] >= c.required && (c.timeLimit == 0 || c.timeLimit >= d.timeLast))
  {
    var (p, ach, d) := (s.player, t.achievements[a], s.player.data[a]);
    var n := |ach.criteria|;
    if forall i :: 0 <= i < n ==> d.counters[i] > 0 {
      forall i | 0 <= i < n
        ensures Fails(t, s, a, i) <==> !Allowed(ach, p.team) || !Met(t, s, a, i)
        ensures Optional(t, s, a, i) == t.criteria[ach.criteria[i]].completeOne
        ensures Grouped(t, s, a, i) == (t.criteria[ach.criteria[i]].notInGroup && p.inGroup)
      { }
      if n > 0 && !Allowed(ach, p.team) { assert Fails(t, s, a, 0); }
      if exists i :: 0 <= i < n && Optional(t, s, a, i) {
        var i :| 0 <= i < n && Optional(t, s, a, i);
        assert Fails(t, s, a, i) || Met(t, s, a, i);
      }
      hide Fails;
    }
  }

  predicate Allowed(ach: Achievement, team: nat) {
    !(ach.faction == AllianceOnly && team == 1) && !(ach.faction == HordeOnly && team == 0)
  }

  predicate Met(t: Table, s: Session, a: Id, i: nat)
    requires Wf(t, s) && a in s.player.data && i < |t.achievements[a].criteria|
  {
    var c, d := t.criteria[t.achievements[a].criteria[i]], s.player.data[a];
    d.counters[i] >= c.required && (c.timeLimit == 0 || c.timeLimit >= d.timeLast)
  }

  // ---- The two mutually recursive handlers -----------------------------------------------

  /** The position of a criterion in an achievement's list, or the length of the list. */
  function Position(criteria: seq<CriterionId>, c: CriterionId): (i: nat)
    ensures i <= |criteria|
    ensures i < |criteria| ==> criteria[i] == c
    ensures forall j :: 0 <= j < i ==> criteria[j] != c
  {
    if criteria == [] || criteria[0] == c then 0 else 1 + Position(criteria[1..], c)
  }

  /** A counter is 32 bits wide. */
  function Increment(x: Counter): Counter { if x == 0xFFFF_FFFF then 0 else x + 1 }

  /** GetAchievementDataByAchievementID. */
  function Track(t: Table, s: Session, a: Id): (r: Session)
    requires Wf(t, s) && a in t.achievements
    ensures Wf(t, r) && a in r.player.data && Done(r) == Done(s)
  {
    if a in s.player.data then s
    else
      var n := |t.achievements[a].criteria|;
      s.(player := s.player.(data := s.player.data[a := Progress(false, seq(n, _ => 0), 0)]))
  }

  function Bump(t: Table, s: Session, a: Id, c: CriterionId): (r: Session)
    requires Wf(t, s) && a in s.player.data
    ensures Wf(t, r) && Done(r) == Done(s) && a in r.player.data
  {
    var d, i := s.player.data[a], Position(t.achievements[a].criteria, c);
    if i == |t.achievements[a].criteria| then s
    else
      var counters := d.counters[i := Increment(d.counters[i])];
      s.(player := s.player.(data := s.player.data[a := d.(counters := counters)]))
  }

  /** An achievement becomes completed. */
  function Mark(t: Table, s: Session, a: Id): (r: Session)
    requires Wf(t, s) && a in s.player.data
    ensures Wf(t, r) && Done(r) == Done(s) + {a}
  {
    s.(player := s.player.(data := s.player.data[a := s.player.data[a].(completed := true)], earned := s.player.earned + [a]))
  }

  /** The Realm First is inserted after the achievements that follow from it are completed. */
  function Crown(t: Table, s: Session, a: Id): Session
    requires a in t.achievements
  {
    if t.achievements[a].realmFirst then s.(firsts := s.firsts + {a}) else s
  }

  /** The achievements not yet completed: what bounds the recursion. */
  ghost function Open(t: Table, s: Session): set<Id> {
    t.achievements.Keys - Done(s)
  }

  ghost function Earn(t: Table, s: Session, a: Id): (r: Session)
    requires Wf(t, s) && a in s.player.data && !s.player.data[a].completed
    ensures Wf(t, r) && Done(s) <= Done(r)
    decreases |Open(t, s)|, 0
  {
    var marked := Mark(t, s, a);
    OpenShrinks(t, s, marked, a);
    Crown(t, Requiring(t, marked, a, 0), a)
  }

  ghost function Requiring(t: Table, s: Session, a: Id, k: nat): (r: Session)
    requires Wf(t, s) && k <= |t.linking|
    ensures Wf(t, r) && Done(s) <= Done(r)
    decreases |Open(t, s)|, 2, |t.linking| - k
  {
    if k == |t.linking| then s
    else
      var c := t.criteria[t.linking[k]];
      var r := if c.referred in t.achievements && c.rule == CompleteAchievement(a) then Visit(t, s, t.linking[k]) else s;
      OpenGrows(t, s, r);
      Requiring(t, r, a, k + 1)
  }

  /** One criterion of an achievement was met once more. */
  ghost function Visit(t: Table, s: Session, c: CriterionId): (r: Session)
    requires Wf(t, s) && c in t.criteria && t.criteria[c].referred in t.achievements
    ensures Wf(t, r) && Done(s) <= Done(r)
    decreases |Open(t, s)|, 1
  {
    var a := t.criteria[c].referred;
    var tracked := Track(t, s, a);
    if tracked.player.data[a].completed then tracked
    else
      var bumped := Bump(t, tracked, a, c);
      assert a !in Done(bumped);
      if CanComplete(t, bumped, a) then Earn(t, bumped, a) else bumped
  }

  lemma OpenShrinks(t: Table, s: Session, r: Session, a: Id)
    requires a in t.achievements && a !in Done(s) && Done(r) == Done(s) + {a}
    ensures |Open(t, r)| < |Open(t, s)|
  {
    assert Open(t, r) == Open(t, s) - {a};
  }

  lemma OpenGrows(t: Table, s: Session, r: Session)
    requires Done(s) <= Done(r)
    ensures |Open(t, r)| <= |Open(t, s)|
  {
    Smaller(Open(t, r), Open(t, s));
  }

  lemma Smaller<T>(a: set<T>, b: set<T>)
    requires a <= b
    ensures |a| <= |b|
  {
    assert a + (b - a) == b;
  }

  // ---- What a call leaves behind ---------------------------------------------------------

  /** The log has every completed achievement once. */
  ghost predicate Recorded(s: Session) {
    && (forall i, j :: 0 <= i < j < |s.player.earned| ==> s.player.earned[i] != s.player.earned[j])
    && (forall a :: a in s.player.earned <==> a in Done(s))
  }

  /** Of the newly done achievements none was in the set, and the Realm Firsts are added to it. */
  ghost predicate Firsts(t: Table, firsts: set<Id>, done: set<Id>, later: set<Id>, laterDone: set<Id>) {
    && (forall a :: a in later <==> a in firsts || (a in laterDone - done && a in t.achievements && t.achievements[a].realmFirst))
    && (forall a :: a in laterDone - done ==> a !in firsts)
  }

  lemma FirstsCrown(t: Table, firsts: set<Id>, done: set<Id>, later: set<Id>, laterDone: set<Id>, a: Id)
    requires Firsts(t, firsts, done + {a}, later, laterDone) && done + {a} <= laterDone
    requires a !in firsts && a !in done && a in t.achievements
    ensures Firsts(t, firsts, done, if t.achievements[a].realmFirst then later + {a} else later, laterDone)
  {
  }

  /** Between two states: completed achievements stay so and are logged once; the newly completed
      were no one's Realm First yet, and the set of these grows by exactly the new ones; and,
      except perhaps for `but`, none can be completed that could not be before. */
  ghost predicate Outcome(t: Table, s: Session, r: Session, but: set<Id>) {
    && Wf(t, s) && Wf(t, r)
    && r.player.gm == s.player.gm && r.player.team == s.player.team && r.player.inGroup == s.player.inGroup
    && Done(s) <= Done(r) && s.player.data.Keys <= r.player.data.Keys
    && (Recorded(s) ==> Recorded(r))
    && s.player.earned <= r.player.earned
    && Firsts(t, s.firsts, Done(s), r.firsts, Done(r))
    && (forall a :: a in r.player.data && a !in but && CanComplete(t, r, a) ==> a in s.player.data && CanComplete(t, s, a))
  }

  lemma OutcomeTrans(t: Table, s: Session, m: Session, r: Session, but: set<Id>)
    requires Outcome(t, s, m, but) && Outcome(t, m, r, {}) && but <= Done(r)
    ensures Outcome(t, s, r, {})
  {
    forall a | a in r.player.data && a in Done(r) ensures !CanComplete(t, r, a) { }
    hide CanComplete, Recorded, Wf;
  }

  /** The conditions look at the achievement's own progress only. */
  lemma SameProgress(t: Table, s: Session, r: Session, a: Id)
    requires Wf(t, s) && Wf(t, r) && a in s.player.data && a in r.player.data && s.player.data[a] == r.player.data[a]
    requires r.player.gm == s.player.gm && r.player.team == s.player.team && r.player.inGroup == s.player.inGroup
    requires s.firsts <= r.firsts && CanComplete(t, r, a)
    ensures CanComplete(t, s, a)
  {
    var n := |t.achievements[a].criteria|;
    forall i | 0 <= i < n
      ensures Fails(t, s, a, i) == Fails(t, r, a, i) && Optional(t, s, a, i) == Optional(t, r, a, i)
      ensures Grouped(t, s, a, i) == Grouped(t, r, a, i)
    { }
  }

  lemma TouchOutcome(t: Table, s: Session, c: CriterionId)
    requires Wf(t, s) && c in t.criteria && t.criteria[c].referred in t.achievements
    ensures var a := t.criteria[c].referred;
            Outcome(t, s, Bump(t, Track(t, s, a), a, c), {a})
  {
    var a := t.criteria[c].referred;
    var r := Bump(t, Track(t, s, a), a, c);
    forall b | b in r.player.data && b != a && CanComplete(t, r, b) ensures b in s.player.data && CanComplete(t, s, b) {
      SameProgress(t, s, r, b);
    }
  }

  lemma MarkOutcome(t: Table, s: Session, a: Id)
    requires Wf(t, s) && a in s.player.data && CanComplete(t, s, a)
    ensures Wf(t, Mark(t, s, a)) && Recorded(s) ==> Recorded(Mark(t, s, a))
    ensures forall b :: b in Mark(t, s, a).player.data && CanComplete(t, Mark(t, s, a), b) ==> CanComplete(t, s, b)
  {
    var r := Mark(t, s, a);
    forall b | b in r.player.data && CanComplete(t, r, b) ensures CanComplete(t, s, b) {
      assert b != a;
      SameProgress(t, s, r, b);
    }
  }

  lemma CrownCan(t: Table, s: Session, r: Session, a: Id)
    requires Wf(t, s) && Wf(t, r) && a in t.achievements
    requires forall b :: b in r.player.data && CanComplete(t, r, b) ==> b in s.player.data && CanComplete(t, s, b)
    ensures Wf(t, Crown(t, r, a)) && Done(Crown(t, r, a)) == Done(r) && (Recorded(r) ==> Recorded(Crown(t, r, a)))
    ensures forall b :: b in r.player.data && CanComplete(t, Crown(t, r, a), b) ==> b in s.player.data && CanComplete(t, s, b)
  {
    forall b | b in r.player.data && CanComplete(t, Crown(t, r, a), b) ensures b in s.player.data && CanComplete(t, s, b) {
      SameProgress(t, r, Crown(t, r, a), b);
    }
  }

  lemma CrownOutcome(t: Table, s: Session, r: Session, a: Id)
    requires Wf(t, s) && a in s.player.data && CanComplete(t, s, a)
    requires Outcome(t, Mark(t, s, a), r, {})
    ensures Outcome(t, s, Crown(t, r, a), {}) && a in Done(Crown(t, r, a))
  {
    MarkOutcome(t, s, a);
    CrownCan(t, s, r, a);
    assert a !in s.firsts && a !in Done(s);
    assert Mark(t, s, a).firsts == s.firsts && s.player.earned <= Mark(t, s, a).player.earned;
    assert Mark(t, s, a).player.data.Keys == s.player.data.Keys;
    FirstsCrown(t, s.firsts, Done(s), r.firsts, Done(r), a);
    hide CanComplete, Wf, Mark, Done, Recorded, Firsts;
  }

  /** Earning an achievement: the recursion ends, and with it everything that could be completed
      because of it is completed. */
  lemma {:induction false} EarnOutcome(t: Table, s: Session, a: Id)
    requires Wf(t, s) && a in s.player.data && CanComplete(t, s, a)
    ensures Outcome(t, s, Earn(t, s, a), {}) && a in Done(Earn(t, s, a))
    decreases |Open(t, s)|, 0
  {
    var marked := Mark(t, s, a);
    OpenShrinks(t, s, marked, a);
    RequiringOutcome(t, marked, a, 0);
    CrownOutcome(t, s, Requiring(t, marked, a, 0), a);
  }

  lemma {:induction false} RequiringOutcome(t: Table, s: Session, a: Id, k: nat)
    requires Wf(t, s) && k <= |t.linking|
    ensures Outcome(t, s, Requiring(t, s, a, k), {})
    decreases |Open(t, s)|, 2, |t.linking| - k
  {
    if k < |t.linking| {
      var c := t.criteria[t.linking[k]];
      if c.referred in t.achievements && c.rule == CompleteAchievement(a) {
        var r := Visit(t, s, t.linking[k]);
        VisitOutcome(t, s, t.linking[k]);
        OpenGrows(t, s, r);
        RequiringOutcome(t, r, a, k + 1);
        OutcomeTrans(t, s, r, Requiring(t, r, a, k + 1), {});
      } else {
        RequiringOutcome(t, s, a, k + 1);
      }
    }
  }

  lemma {:induction false} VisitOutcome(t: Table, s: Session, c: CriterionId)
    requires Wf(t, s) && c in t.criteria && t.criteria[c].referred in t.achievements
    ensures Outcome(t, s, Visit(t, s, c), {})
    decreases |Open(t, s)|, 1
  {
    var a := t.criteria[c].referred;
    var tracked := Track(t, s, a);
    var bumped := Bump(t, tracked, a, c);
    TouchOutcome(t, s, c);
    if !tracked.player.data[a].completed && CanComplete(t, bumped, a) {
      EarnOutcome(t, bumped, a);
      OutcomeTrans(t, s, bumped, Earn(t, bumped, a), {a});
    }
  }

  // ---- What the cascade counts -----------------------------------------------------------

  /** A counter of an achievement; one that is not tracked stands at zero. */
  function CounterOf(t: Table, s: Session, a: Id, i: nat): Counter
    requires Wf(t, s) && a in t.achievements && i < |t.achievements[a].criteria|
  {
    if a in s.player.data then s.player.data[a].counters[i] else 0
  }

  /** Counting further, modulo 2^32. */
  function Plus(x: Counter, n: nat): Counter { (x + n) % 0x1_0000_0000 }

  lemma PlusTwice(x: Counter, n: nat, m: nat)
    ensures Plus(Plus(x, n), m) == Plus(x, n + m) && Plus(x, 0) == x && Plus(x, 1) == Increment(x)
  {
  }

  /** Whether meeting criterion `c` counts at position `i` of achievement `a`. */
  predicate CountsAt(t: Table, c: CriterionId, a: Id, i: nat)
    requires c in t.criteria && a in t.achievements
  {
    t.criteria[c].referred == a && i < |t.achievements[a].criteria| && i == Position(t.achievements[a].criteria, c)
  }

  /** How often earning `e` counts at position `i` of achievement `a`, from the k-th linking criterion on. */
  ghost function Links(t: Table, e: Id, a: Id, i: nat, k: nat): nat
    requires t.Valid() && a in t.achievements && k <= |t.linking|
    decreases |t.linking| - k
  {
    if k == |t.linking| then 0
    else
      var c := t.linking[k];
      Links(t, e, a, i, k + 1) + if t.criteria[c].rule == CompleteAchievement(e) && CountsAt(t, c, a, i) then 1 else 0
  }

  /** The same for every achievement of a sequence. */
  ghost function Tally(t: Table, earned: seq<Id>, a: Id, i: nat): nat
    requires t.Valid() && a in t.achievements
    decreases |earned|
  {
    if earned == [] then 0 else Links(t, earned[0], a, i, 0) + Tally(t, earned[1..], a, i)
  }

  lemma {:induction false} TallyConcat(t: Table, x: seq<Id>, y: seq<Id>, a: Id, i: nat)
    requires t.Valid() && a in t.achievements
    ensures Tally(t, x + y, a, i) == Tally(t, x, a, i) + Tally(t, y, a, i)
    decreases |x|
  {
    if x == [] {
      assert x + y == y;
    } else {
      assert (x + y)[0] == x[0] && (x + y)[1..] == x[1..] + y;
      TallyConcat(t, x[1..], y, a, i);
    }
  }

  /** What was earned between two states. */
  function News(s: Session, r: Session): seq<Id>
    requires s.player.earned <= r.player.earned
  {
    r.player.earned[|s.player.earned|..]
  }

  /** Between two states the counter moved once for each criterion met, plus `extra`. */
  ghost predicate Counted(t: Table, s: Session, r: Session, a: Id, i: nat, extra: nat)
    requires t.Valid() && a in t.achievements && i < |t.achievements[a].criteria|
  {
    && Wf(t, s) && Wf(t, r) && s.player.earned <= r.player.earned && Done(s) <= Done(r)
    && (a !in Done(r) ==> CounterOf(t, r, a, i) == Plus(CounterOf(t, s, a, i), extra + Tally(t, News(s, r), a, i)))
  }

  lemma CountedTwice(t: Table, s: Session, m: Session, r: Session, a: Id, i: nat, x: nat, y: nat)
    requires t.Valid() && a in t.achievements && i < |t.achievements[a].criteria|
    requires Counted(t, s, m, a, i, x) && Counted(t, m, r, a, i, y)
    ensures Counted(t, s, r, a, i, x + y)
  {
    assert News(s, r) == News(s, m) + News(m, r);
    TallyConcat(t, News(s, m), News(m, r), a, i);
    hide Tally, Done, Wf, CounterOf, Plus;
    PlusTwice(CounterOf(t, s, a, i), x + Tally(t, News(s, m), a, i), y + Tally(t, News(m, r), a, i));
  }

  /** Earning an achievement, and all that follows from it, counts once for each criterion that
      requires an achievement so earned, at every position of every achievement still uncompleted. */
  lemma {:induction false} EarnCounts(t: Table, s: Session, e: Id, a: Id, i: nat)
    requires Wf(t, s) && e in s.player.data && !s.player.data[e].completed && a in t.achievements && i < |t.achievements[a].criteria|
    ensures Counted(t, s, Earn(t, s, e), a, i, 0)
    decreases |Open(t, s)|, 0
  {
    var marked := Mark(t, s, e);
    OpenShrinks(t, s, marked, e);
    var r := Requiring(t, marked, e, 0);
    RequiringCounts(t, marked, e, 0, a, i);
    MarkCounts(t, s, e, a, i, r);
  }

  lemma MarkCounts(t: Table, s: Session, e: Id, a: Id, i: nat, r: Session)
    requires Wf(t, s) && e in s.player.data && !s.player.data[e].completed && a in t.achievements && i < |t.achievements[a].criteria|
    requires Counted(t, Mark(t, s, e), r, a, i, Links(t, e, a, i, 0))
    ensures Counted(t, s, Crown(t, r, e), a, i, 0)
  {
    var marked, f := Mark(t, s, e), Crown(t, r, e);
    assert Done(f) == Done(r) && Wf(t, f) && Done(marked) == Done(s) + {e};
    assert News(s, f) == [e] + News(marked, r);
    TallyConcat(t, [e], News(marked, r), a, i);
    assert Tally(t, [e], a, i) == Links(t, e, a, i, 0) by { assert [e][1..] == []; }
    assert a !in Done(r) ==> CounterOf(t, f, a, i) == CounterOf(t, r, a, i) && CounterOf(t, marked, a, i) == CounterOf(t, s, a, i);
    hide Tally, Links, Plus;
  }

  lemma {:induction false} RequiringCounts(t: Table, s: Session, e: Id, k: nat, a: Id, i: nat)
    requires Wf(t, s) && k <= |t.linking| && a in t.achievements && i < |t.achievements[a].criteria|
    ensures Counted(t, s, Requiring(t, s, e, k), a, i, Links(t, e, a, i, k))
    decreases |Open(t, s)|, 2, |t.linking| - k
  {
    hide Tally, Plus, Counted, CounterOf, Done, CanComplete;
    if k == |t.linking| {
      CountedNothing(t, s, a, i);
    } else {
      var id := t.linking[k];
      var c := t.criteria[id];
      if c.referred in t.achievements && c.rule == CompleteAchievement(e) {
        var r := Visit(t, s, id);
        VisitCounts(t, s, id, a, i);
        OpenGrows(t, s, r);
        RequiringCounts(t, r, e, k + 1, a, i);
        CountedTwice(t, s, r, Requiring(t, r, e, k + 1), a, i, if CountsAt(t, id, a, i) then 1 else 0, Links(t, e, a, i, k + 1));
      } else {
        RequiringCounts(t, s, e, k + 1, a, i);
      }
    }
  }

  lemma CountedNothing(t: Table, s: Session, a: Id, i: nat)
    requires Wf(t, s) && a in t.achievements && i < |t.achievements[a].criteria|
    ensures Counted(t, s, s, a, i, 0)
  {
    assert News(s, s) == [];
    PlusTwice(CounterOf(t, s, a, i), 0, 0);
  }

  lemma {:induction false} VisitCounts(t: Table, s: Session, c: CriterionId, a: Id, i: nat)
    requires Wf(t, s) && c in t.criteria && t.criteria[c].referred in t.achievements
    requires a in t.achievements && i < |t.achievements[a].criteria|
    ensures Counted(t, s, Visit(t, s, c), a, i, if CountsAt(t, c, a, i) then 1 else 0)
    decreases |Open(t, s)|, 1
  {
    hide Tally, Plus;
    var b := t.criteria[c].referred;
    var tracked := Track(t, s, b);
    var bumped := Bump(t, tracked, b, c);
    var extra := if CountsAt(t, c, a, i) then 1 else 0;
    TouchCounts(t, s, c, a, i);
    if !tracked.player.data[b].completed && CanComplete(t, bumped, b) {
      EarnCounts(t, bumped, b, a, i);
      CountedTwice(t, s, bumped, Earn(t, bumped, b), a, i, extra, 0);
    }
  }

  /** Tracking and counting one criterion; a completed achievement is tracked but not counted. */
  lemma TouchCounts(t: Table, s: Session, c: CriterionId, a: Id, i: nat)
    requires Wf(t, s) && c in t.criteria && t.criteria[c].referred in t.achievements
    requires a in t.achievements && i < |t.achievements[a].criteria|
    ensures var (b, extra) := (t.criteria[c].referred, if CountsAt(t, c, a, i) then 1 else 0);
            var tracked := Track(t, s, b);
            && (tracked.player.data[b].completed ==> Counted(t, s, tracked, a, i, extra))
            && Counted(t, s, Bump(t, tracked, b, c), a, i, extra)
  {
    var b := t.criteria[c].referred;
    var tracked := Track(t, s, b);
    var bumped := Bump(t, tracked, b, c);
    assert News(s, tracked) == [] && News(s, bumped) == [];
    PlusTwice(CounterOf(t, s, a, i), 0, 0);
    PlusTwice(CounterOf(t, s, a, i), 1, 0);
    hide Plus, Increment;
  }

  // ---- Killing a creature ----------------------------------------------------------------

  ghost function Killing(t: Table, s: Session, creature: nat, k: nat): (r: Session)
    requires Wf(t, s) && k <= |t.killing|
    ensures Wf(t, r)
    decreases |t.killing| - k
  {
    if k == |t.killing| then s
    else
      var c := t.criteria[t.killing[k]];
      var r := if c.referred in t.achievements && c.rule == KillCreature(creature) then Visit(t, s, t.killing[k]) else s;
      Killing(t, r, creature, k + 1)
  }

  lemma {:induction false} KillingOutcome(t: Table, s: Session, creature: nat, k: nat)
    requires Wf(t, s) && k <= |t.killing|
    ensures Outcome(t, s, Killing(t, s, creature, k), {})
    decreases |t.killing| - k
  {
    if k < |t.killing| {
      var c := t.criteria[t.killing[k]];
      if c.referred in t.achievements && c.rule == KillCreature(creature) {
        var r := Visit(t, s, t.killing[k]);
        VisitOutcome(t, s, t.killing[k]);
        KillingOutcome(t, r, creature, k + 1);
        OutcomeTrans(t, s, r, Killing(t, r, creature, k + 1), {});
      } else {
        KillingOutcome(t, s, creature, k + 1);
      }
    }
  }

  // ---- Dying -----------------------------------------------------------------------------

  /** A criterion that has made progress and does not survive a death. */
  predicate Mortal(t: Table, s: Session, a: Id, i: nat)
    requires Wf(t, s) && a in s.player.data && i < |t.achievements[a].criteria|
  {
    s.player.data[a].counters[i] != 0 && t.criteria[t.achievements[a].criteria[i]].noDeath
  }

  function FirstMortal(t: Table, s: Session, a: Id, i: nat): (r: nat)
    requires Wf(t, s) && a in s.player.data && i <= |t.achievements[a].criteria|
    ensures i <= r <= |t.achievements[a].criteria|
    ensures r < |t.achievements[a].criteria| ==> Mortal(t, s, a, r)
    ensures forall j :: i <= j < r ==> !Mortal(t, s, a, j)
    decreases |t.achievements[a].criteria| - i
  {
    if i == |t.achievements[a].criteria| || Mortal(t, s, a, i) then i else FirstMortal(t, s, a, i + 1)
  }

  /** Only the first such counter is reset. */
  function Reset(t: Table, s: Session, a: Id): (d: Progress)
    requires Wf(t, s) && a in s.player.data
    ensures |d.counters| == |s.player.data[a].counters| && d.completed == s.player.data[a].completed
  {
    var d, i := s.player.data[a], FirstMortal(t, s, a, 0);
    if d.completed || i == |t.achievements[a].criteria| then d else d.(counters := d.counters[i := 0])
  }

  lemma ResetLocal(t: Table, s: Session, r: Session, a: Id)
    requires Wf(t, s) && Wf(t, r) && a in s.player.data && a in r.player.data && s.player.data[a] == r.player.data[a]
    ensures Reset(t, s, a) == Reset(t, r, a)
  {
    forall i | 0 <= i < |t.achievements[a].criteria| ensures Mortal(t, s, a, i) == Mortal(t, r, a, i) { }
    var i, j := FirstMortal(t, s, a, 0), FirstMortal(t, r, a, 0);
    assert i == j;
  }

  function Die(t: Table, s: Session): (r: Session)
    requires Wf(t, s)
    ensures Wf(t, r)
  {
    s.(player := s.player.(data := map a | a in s.player.data :: Reset(t, s, a)))
  }

  lemma DieOutcome(t: Table, s: Session)
    requires Wf(t, s)
    ensures Outcome(t, s, Die(t, s), {})
  {
    var r := Die(t, s);
    assert Done(r) == Done(s);
    forall a | a in s.player.data && !s.player.data[a].completed && FirstMortal(t, s, a, 0) < |t.achievements[a].criteria|
      ensures !CanComplete(t, r, a)
    {
      assert r.player.data[a].counters[FirstMortal(t, s, a, 0)] == 0;
    }
    forall a | a in r.player.data && CanComplete(t, r, a) ensures a in s.player.data && CanComplete(t, s, a) {
      SameProgress(t, s, r, a);
    }
  }

  /** After a death no uncompleted achievement that had a counter to lose can be completed; but
      only one counter is lost, so they are all zero exactly when there was at most one. */
  lemma AfterDeath(t: Table, s: Session, a: Id)
    requires Wf(t, s) && a in s.player.data && !s.player.data[a].completed
    ensures (exists i :: 0 <= i < |t.achievements[a].criteria| && Mortal(t, s, a, i)) ==> !CanComplete(t, Die(t, s), a)
    ensures (forall i :: 0 <= i < |t.achievements[a].criteria| ==> !Mortal(t, Die(t, s), a, i))
      <==> !exists i, j :: 0 <= i < j < |t.achievements[a].criteria| && Mortal(t, s, a, i) && Mortal(t, s, a, j)
  {
    var n, first, r := |t.achievements[a].criteria|, FirstMortal(t, s, a, 0), Die(t, s);
    if first < n {
      assert r.player.data[a].counters[first] == 0;
    }
    forall i | 0 <= i < n ensures Mortal(t, r, a, i) == (Mortal(t, s, a, i) && i != first) { }
    if exists i :: 0 <= i < n && Mortal(t, r, a, i) {
      var i :| 0 <= i < n && Mortal(t, r, a, i);
      assert Mortal(t, s, a, first) && Mortal(t, s, a, i) && first < i;
    }
  }

  /** A counter may survive a death: two had made progress, and only the first is reset. */
  lemma ACounterSurvives()
    ensures exists t, s, a :: Wf(t, s) && a in s.player.data && !s.player.data[a].completed && AnyMortal(t, Die(t, s), a)
  {
    var c := Criterion(1, KillCreature(5), 2, 0, false, false, true);
    var t := Table(map[1 := Achievement([10, 11], false, Anyone, false)], map[10 := c, 11 := c], [], []);
    var s := Session(Player(false, 0, false, map[1 := Progress(false, [1, 1], 0)], []), {});
    assert Wf(t, s) && Mortal(t, s, 1, 0) && Mortal(t, s, 1, 1);
    AfterDeath(t, s, 1);
    assert AnyMortal(t, Die(t, s), 1);
  }

  predicate AnyMortal(t: Table, s: Session, a: Id)
    requires Wf(t, s)
  {
    a in s.player.data && exists i :: 0 <= i < |t.achievements[a].criteria| && Mortal(t, s, a, i)
  }

  // ---- The realm -------------------------------------------------------------------------

  type PlayerId = nat

  datatype Realm = Realm(players: map<PlayerId, Player>, firsts: set<Id>)

  datatype Event = Kill(player: PlayerId, creature: nat) | Death(player: PlayerId) | Group(player: PlayerId, joined: bool)

  function At(w: Realm, p: PlayerId): Session
    requires p in w.players
  {
    Session(w.players[p], w.firsts)
  }

  function Put(w: Realm, p: PlayerId, s: Session): Realm { Realm(w.players[p := s.player], s.firsts) }

  function Regroup(s: Session, joined: bool): Session { s.(player := s.player.(inGroup := joined)) }

  ghost predicate AllWf(t: Table, w: Realm) {
    forall p :: p in w.players ==> Wf(t, At(w, p))
  }

  ghost function Step(t: Table, w: Realm, ev: Event): (r: Realm)
    requires AllWf(t, w)
    ensures AllWf(t, r)
  {
    if ev.player !in w.players then w
    else
      var s := At(w, ev.player);
      Put(w, ev.player, match ev
        case Kill(_, creature) => Killing(t, s, creature, 0)
        case Death(_) => Die(t, s)
        case Group(_, joined) => Regroup(s, joined))
  }

  ghost function Run(t: Table, w: Realm, evs: seq<Event>): (r: Realm)
    requires AllWf(t, w)
    ensures AllWf(t, r)
    decreases |evs|
  {
    if evs == [] then w else Step(t, Run(t, w, evs[..|evs| - 1]), evs[|evs| - 1])
  }

  /** No criterion of the achievement looks at the player's group. */
  ghost predicate GroupFree(t: Table, a: Id)
    requires t.Valid() && a in t.achievements
  {
    forall i :: 0 <= i < |t.achievements[a].criteria| ==> !t.criteria[t.achievements[a].criteria[i]].notInGroup
  }

  /** Nothing that can be completed is left uncompleted. */
  ghost predicate Quiet(t: Table, s: Session)
    requires Wf(t, s)
  {
    forall a :: a in s.player.data && GroupFree(t, a) ==> !CanComplete(t, s, a)
  }

  ghost predicate RealmFirst(t: Table, a: Id) { a in t.achievements && t.achievements[a].realmFirst }

  /** What holds between any two players: a Realm First that one has is taken, and no other has it. */
  ghost predicate Unique(t: Table, w: Realm) {
    && (forall p, a :: p in w.players && RealmFirst(t, a) && a in Done(At(w, p)) ==> a in w.firsts)
    && (forall p, q, a :: p in w.players && q in w.players && RealmFirst(t, a) && a in Done(At(w, p)) && a in Done(At(w, q)) ==> p == q)
  }

  ghost predicate Inv(t: Table, w: Realm) {
    && AllWf(t, w) && Unique(t, w)
    && forall p :: p in w.players ==> Recorded(At(w, p)) && Quiet(t, At(w, p))
  }

  lemma PutUnique(t: Table, w: Realm, p: PlayerId, r: Session)
    requires p in w.players && Unique(t, w) && Outcome(t, At(w, p), r, {})
    ensures Unique(t, Put(w, p, r))
  {
    hide CanComplete, Wf, Recorded;
    var v := Put(w, p, r);
    assert At(v, p) == r;
    forall q | q in w.players && q != p ensures Done(At(v, q)) == Done(At(w, q)) { }
    forall a, q | q in w.players && RealmFirst(t, a) && a in Done(At(v, q)) ensures a in v.firsts { }
    forall q, a | q in w.players && q != p && RealmFirst(t, a) && a in Done(At(v, q)) ensures a !in Done(r) {
      assert a in w.firsts && a !in Done(At(w, p));
    }
  }

  lemma PutQuiet(t: Table, w: Realm, p: PlayerId, r: Session)
    requires p in w.players && Inv(t, w) && Outcome(t, At(w, p), r, {})
    ensures AllWf(t, Put(w, p, r))
    ensures forall q :: q in w.players ==> Recorded(At(Put(w, p, r), q)) && Quiet(t, At(Put(w, p, r), q))
  {
    var v := Put(w, p, r);
    assert At(v, p) == r;
    forall q | q in w.players && q != p
      ensures Wf(t, At(v, q)) && Recorded(At(v, q)) && Quiet(t, At(v, q))
    {
      assert Recorded(At(w, q)) && Done(At(v, q)) == Done(At(w, q));
      forall a | a in At(v, q).player.data && GroupFree(t, a) && CanComplete(t, At(v, q), a) ensures false {
        SameProgress(t, At(w, q), At(v, q), a);
      }
    }
  }

  lemma RegroupQuiet(t: Table, s: Session, joined: bool)
    requires Wf(t, s) && Quiet(t, s)
    ensures Wf(t, Regroup(s, joined)) && Quiet(t, Regroup(s, joined)) && Done(Regroup(s, joined)) == Done(s)
  {
    var r := Regroup(s, joined);
    forall a | a in s.player.data && GroupFree(t, a) && CanComplete(t, r, a) ensures CanComplete(t, s, a) {
      forall i | 0 <= i < |t.achievements[a].criteria|
        ensures Fails(t, s, a, i) == Fails(t, r, a, i) && Optional(t, s, a, i) == Optional(t, r, a, i) && !Grouped(t, s, a, i)
      { }
    }
  }

  lemma StepKeeps(t: Table, w: Realm, ev: Event)
    requires Inv(t, w)
    ensures Inv(t, Step(t, w, ev))
  {
    if ev.player in w.players {
      var s := At(w, ev.player);
      match ev {
        case Kill(p, creature) =>
          KillingOutcome(t, s, creature, 0);
          PutUnique(t, w, p, Killing(t, s, creature, 0));
          PutQuiet(t, w, p, Killing(t, s, creature, 0));
        case Death(p) =>
          DieOutcome(t, s);
          PutUnique(t, w, p, Die(t, s));
          PutQuiet(t, w, p, Die(t, s));
        case Group(p, joined) =>
          RegroupQuiet(t, s, joined);
          RegroupKeeps(t, w, p, joined);
      }
    }
  }

  lemma RegroupKeeps(t: Table, w: Realm, p: PlayerId, joined: bool)
    requires Inv(t, w) && p in w.players
    ensures Inv(t, Put(w, p, Regroup(At(w, p), joined)))
  {
    var v := Put(w, p, Regroup(At(w, p), joined));
    RegroupQuiet(t, At(w, p), joined);
    forall q | q in w.players ensures Done(At(v, q)) == Done(At(w, q)) && At(v, q).player.earned == At(w, q).player.earned { }
    forall q | q in w.players && q != p ensures At(v, q) == At(w, q) { }
  }

  /** Main theorem: in every run of kills, deaths and changes of group, no player earns an
      achievement twice, no Realm First is earned by two players, and no tracked achievement
      whose conditions leave grouping aside could be completed but is not. */
  lemma {:induction false} RunKeeps(t: Table, w: Realm, evs: seq<Event>)
    requires Inv(t, w)
    ensures Inv(t, Run(t, w, evs))
    decreases |evs|
  {
    if evs != [] {
      RunKeeps(t, w, evs[..|evs| - 1]);
      StepKeeps(t, Run(t, w, evs[..|evs| - 1]), evs[|evs| - 1]);
    }
  }

  /** A realm in which nobody has any progress is a start. */
  lemma NewRealm(t: Table, w: Realm)
    requires t.Valid() && forall p :: p in w.players ==> w.players[p].data == map[] && w.players[p].earned == []
    ensures Inv(t, w)
  {
  }
}
