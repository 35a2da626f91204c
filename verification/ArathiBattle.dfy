/** The battleground object itself, which keeps every copy in a field of its own and repairs the
    copies step by step. The ghost field `model` is the battle without the copies. */
module ArathiBattle {
  import opened Wrappers
  import opened ArathiBasinModel

  // ---- When the copies agree -------------------------------------------------------------

  function Lookup(m: map<EventKey, Timer>, k: EventKey): Option<Timer> {
    if k in m then Some(m[k]) else None
  }

  /** The pending events are the ones the battle calls for, except perhaps the timer of `but`. */
  ghost predicate EventsAgree(events: map<EventKey, Timer>, s: Basin, but: Option<BaseId>)
    requires s.Shape()
  {
    forall k: EventKey :: !(k.Capture? && Some(k.base) == but) ==> Lookup(events, k) == Pending(s, k)
  }

  /** The displayed fields are right, except perhaps the assault fields of `but`. */
  ghost predicate FieldsAgree(states: map<Field, nat>, s: Basin, but: Option<BaseId>)
    requires s.Shape()
  {
    forall f: Field :: f in states && (!(f.AssaultField? && Some(f.base) == but) ==> states[f] == Displayed(s, f))
  }

  ghost predicate BasesAgree(owned: seq<Option<Team>>, last: seq<Option<Team>>, bases: seq<Base>) {
    && |owned| == |last| == |bases|
    && forall b :: 0 <= b < |bases| ==> owned[b] == OwnerOf(bases[b]) && last[b] == LastOwnerOf(bases[b])
  }

  ghost predicate AssaultsAgree(assaulted: seq<Option<Team>>, bases: seq<Base>, but: Option<BaseId>) {
    && |assaulted| == |bases| == NUM_BASES
    && forall b: BaseId :: Some(b) != but ==> assaulted[b] == AssaulterOf(bases[b]) && Fair(bases[b])
  }

  ghost predicate CountsAgree(captured: seq<nat>, bases: seq<Base>) {
    |captured| == 2 && captured[0] == Count(bases, 0) && captured[1] == Count(bases, 1)
  }

  /** event_ModifyTime: a pending event keeps everything but its period. */
  function ModifyTime(events: map<EventKey, Timer>, k: EventKey, period: nat): map<EventKey, Timer> {
    if k in events then events[k := events[k].(period := period)] else events
  }

  /** The three fields written when team `t` takes a base and has `n`. */
  function ShowTaken(states: map<Field, nat>, id: BaseId, t: Team, n: nat): map<Field, nat> {
    states[CaptureBaseField(t) := n][AssaultField(id, t) := 0][OwnedField(id, t) := 1]
  }

  /** The two fields written when team `t` loses a base and has `n` left. */
  function ShowLost(states: map<Field, nat>, id: BaseId, t: Team, n: nat): map<Field, nat> {
    states[CaptureBaseField(t) := n][OwnedField(id, t) := 0]
  }

  /** The first base adds the resource event of a team, a later one speeds it up. */
  function ScheduleTaken(events: map<EventKey, Timer>, t: Team, n: nat): map<EventKey, Timer> {
    if n == 1 then events[Resources(t) := Timer(Interval(1), 0, t)] else ModifyTime(events, Resources(t), Interval(n))
  }

  function ScheduleLost(events: map<EventKey, Timer>, t: Team, n: nat): map<EventKey, Timer> {
    if n == 0 then events - {Resources(t)} else ModifyTime(events, Resources(t), Interval(n))
  }

  // ---- What each repair restores ---------------------------------------------------------

  function WithBase(s: Basin, id: BaseId, b: Base): Basin
    requires s.Shape()
  {
    s.(bases := s.bases[id := b])
  }

  lemma CountsAfter(captured: seq<nat>, s: Basin, id: BaseId, b: Base)
    requires s.Shape() && CountsAgree(captured, s.bases)
    ensures s.bases[id].Held? ==> captured[s.bases[id].team] > 0
    ensures !s.bases[id].Held? && b.Held? ==> CountsAgree(captured[b.team := captured[b.team] + 1], WithBase(s, id, b).bases)
    ensures !s.bases[id].Held? && !b.Held? ==> CountsAgree(captured, WithBase(s, id, b).bases)
    ensures s.bases[id].Held? && !b.Held? && captured[s.bases[id].team] > 0 ==>
      CountsAgree(captured[s.bases[id].team := captured[s.bases[id].team] - 1], WithBase(s, id, b).bases)
  {
    hide Count;
    CountUpdate(s.bases, id, b, 0);
    CountUpdate(s.bases, id, b, 1);
    if s.bases[id].Held? { CountPositive(s.bases, id, s.bases[id].team); }
  }

  /** The event of the team whose count changed is added, moved or removed. */
  lemma EventsAfter(events: map<EventKey, Timer>, now: map<EventKey, Timer>, s: Basin, r: Basin, id: BaseId, t: Team)
    requires s.Shape() && r.Shape() && EventsAgree(events, s, Some(id))
    requires Count(s.bases, Other(t)) == Count(r.bases, Other(t))
    requires forall b: BaseId :: b != id ==> s.bases[b] == r.bases[b]
    requires var (n, k) := (Count(r.bases, t), Resources(t));
             now == if n == 0 then events - {k}
                    else if n == 1 && k !in events then events[k := Timer(Interval(1), 0, t)]
                    else ModifyTime(events, k, Interval(n))
    requires Count(r.bases, t) > 1 ==> Count(s.bases, t) > 0
    ensures EventsAgree(now, r, Some(id))
    ensures Lookup(now, Capture(id)) == Lookup(events, Capture(id))
  {
    hide Count;
  }

  lemma EventsTaken(events: map<EventKey, Timer>, now: map<EventKey, Timer>, s: Basin, id: BaseId, t: Team)
    requires s.Shape() && EventsAgree(events, s, Some(id)) && s.bases[id].Contested? && Capture(id) !in events
    requires now == ScheduleTaken(events, t, Count(s.bases, t) + 1)
    ensures EventsAgree(now, WithBase(s, id, Held(t)), None)
  {
    hide Count;
    var r := WithBase(s, id, Held(t));
    CountUpdate(s.bases, id, Held(t), 0);
    CountUpdate(s.bases, id, Held(t), 1);
    assert Lookup(events, Resources(t)) == Pending(s, Resources(t));
    EventsAfter(events, now, s, r, id, t);
    assert Lookup(now, Capture(id)) == Pending(r, Capture(id));
  }

  lemma EventsLost(events: map<EventKey, Timer>, now: map<EventKey, Timer>, s: Basin, id: BaseId, t: Team, b: Base)
    requires s.Shape() && EventsAgree(events, s, None) && s.bases[id] == Held(t) && b.Contested? && Count(s.bases, t) > 0
    requires now == ScheduleLost(events, t, Count(s.bases, t) - 1)
    ensures EventsAgree(now, WithBase(s, id, b), Some(id))
    ensures Capture(id) !in now
  {
    hide Count;
    var r := WithBase(s, id, b);
    CountUpdate(s.bases, id, b, 0);
    CountUpdate(s.bases, id, b, 1);
    assert Lookup(events, Resources(t)) == Pending(s, Resources(t));
    assert Lookup(events, Capture(id)) == Pending(s, Capture(id));
    EventsAfter(events, now, s, r, id, t);
  }

  lemma BasesAfter(c: Copies, r: Copies, s: Basin, id: BaseId, b: Base)
    requires s.Shape() && BasesAgree(c.owned, c.last, s.bases) && AssaultsAgree(c.assaulted, s.bases, Some(id))
    requires r.owned == c.owned[id := OwnerOf(b)] && r.last == c.last[id := LastOwnerOf(b)]
    ensures BasesAgree(r.owned, r.last, WithBase(s, id, b).bases)
    ensures r.assaulted == c.assaulted[id := AssaulterOf(b)] && Fair(b) ==> AssaultsAgree(r.assaulted, WithBase(s, id, b).bases, None)
    ensures r.assaulted == c.assaulted ==> AssaultsAgree(r.assaulted, WithBase(s, id, b).bases, Some(id))
  {
    hide Count;
  }

  /** The fields of the base and the count of the team that gains it. */
  lemma FieldsTaken(states: map<Field, nat>, now: map<Field, nat>, s: Basin, r: Basin, id: BaseId, t: Team)
    requires s.Shape() && FieldsAgree(states, s, Some(id)) && states[AssaultField(id, Other(t))] == 0
    requires s.bases[id].Contested? && r == WithBase(s, id, Held(t)) && Count(s.bases, Other(t)) == Count(r.bases, Other(t))
    requires now == ShowTaken(states, id, t, Count(r.bases, t))
    ensures FieldsAgree(now, r, None)
  {
    hide Count;
  }

  /** The fields of the base and the count of the team that loses it. */
  lemma FieldsLost(states: map<Field, nat>, now: map<Field, nat>, s: Basin, r: Basin, id: BaseId, t: Team, taker: Team)
    requires s.Shape() && FieldsAgree(states, s, None)
    requires s.bases[id] == Held(t) && r == WithBase(s, id, Contested(taker, Some(t)))
    requires Count(s.bases, Other(t)) == Count(r.bases, Other(t))
    requires now == ShowLost(states, id, t, Count(r.bases, t))
    ensures FieldsAgree(now, r, Some(id))
    ensures forall o: Team :: now[AssaultField(id, o)] == 0
  {
    hide Count;
    forall o: Team ensures now[AssaultField(id, o)] == 0 {
      assert states[AssaultField(id, o)] == Displayed(s, AssaultField(id, o));
    }
  }

  function AllFields(): set<Field> {
    (set b: BaseId | b < NUM_BASES :: NeutralField(b))
    + (set b: BaseId, t: Team | b < NUM_BASES && t < 2 :: AssaultField(b, t))
    + (set b: BaseId, t: Team | b < NUM_BASES && t < 2 :: OwnedField(b, t))
    + (set t: Team | t < 2 :: CaptureBaseField(t))
    + (set t: Team | t < 2 :: ResourceField(t))
  }

  lemma InAllFields(f: Field)
    ensures f in AllFields()
  {
    match f
    case NeutralField(b) => assert b < NUM_BASES;
    case AssaultField(b, t) => assert b < NUM_BASES && t < 2;
    case OwnedField(b, t) => assert b < NUM_BASES && t < 2;
    case CaptureBaseField(t) => assert t < 2;
    case ResourceField(t) => assert t < 2;
  }

  /** Every field is displayed from the start. */
  function InitialStates(): map<Field, nat> {
    map f | f in AllFields() :: if f.NeutralField? then 1 else 0
  }

  lemma InitialStatesAgree(s: Basin)
    requires s.Shape() && s.resources == [0, 0] && forall b: BaseId :: s.bases[b].Untouched?
    ensures FieldsAgree(InitialStates(), s, None)
  {
    NoBases(s.bases);
    hide Count;
    forall f: Field ensures f in InitialStates() && InitialStates()[f] == Displayed(s, f) {
      InAllFields(f);
    }
  }

  lemma {:induction false} NoBases(bases: seq<Base>)
    requires forall b :: 0 <= b < |bases| ==> bases[b].Untouched?
    ensures Count(bases, 0) == 0 == Count(bases, 1)
  {
    if bases != [] { NoBases(bases[1..]); }
  }

  // ---- The object ------------------------------------------------------------------------

  /** The fields of the object. */
  datatype Copies = Copies(
    step: nat, owned: seq<Option<Team>>, assaulted: seq<Option<Team>>, last: seq<Option<Team>>, captured: seq<nat>,
    resources: seq<nat>, lastHonor: seq<nat>, loser: Option<Team>, events: map<EventKey, Timer>, states: map<Field, nat>)

  ghost predicate ScoresAgree(c: Copies, s: Basin)
    requires s.Shape()
  {
    && Scores(s) && c.step == HonorStep(s.weekend) && c.loser == s.loser && c.resources == s.resources
    && c.lastHonor == [c.step * s.payouts[0], c.step * s.payouts[1]]
  }

  /** Everything agrees except, perhaps, who assaults `but`, its timer and its assault fields. */
  ghost predicate Agree(c: Copies, s: Basin, but: Option<BaseId>) {
    && s.Shape() && ScoresAgree(c, s)
    && CountsAgree(c.captured, s.bases)
    && BasesAgree(c.owned, c.last, s.bases)
    && AssaultsAgree(c.assaulted, s.bases, but)
    && (if s.Ended() then c.events == map[] else EventsAgree(c.events, s, but))
    && FieldsAgree(c.states, s, but)
  }

  lemma InitialAgrees(c: Copies, weekend: bool)
    requires var none := seq(NUM_BASES, _ => None);
             c == Copies(HonorStep(weekend), none, none, none, [0, 0], [0, 0], [0, 0], None, map[], InitialStates())
    ensures Agree(c, NewBasin(weekend), None)
  {
    hide Count;
    NoBases(NewBasin(weekend).bases);
    InitialStatesAgree(NewBasin(weekend));
    hide FieldsAgree;
  }

  lemma ScoresSame(c: Copies, r: Copies, s: Basin, id: BaseId, b: Base)
    requires s.Shape() && ScoresAgree(c, s)
    requires r.step == c.step && r.resources == c.resources && r.lastHonor == c.lastHonor && r.loser == c.loser
    ensures ScoresAgree(r, WithBase(s, id, b))
  {
    hide Count;
  }

  lemma Lengths(c: Copies, s: Basin, id: BaseId)
    requires Agree(c, s, Some(id))
    ensures s.Shape() && |c.owned| == |c.last| == |c.assaulted| == NUM_BASES && |c.captured| == 2
  {
    hide Count, ScoresAgree, EventsAgree, FieldsAgree;
  }

  /** What a base's three fields say. */
  lemma BaseFacts(c: Copies, s: Basin, id: BaseId, but: Option<BaseId>)
    requires Agree(c, s, but) && (but == None || but == Some(id))
    ensures s.Shape() && |c.owned| == |c.last| == |c.assaulted| == NUM_BASES && |c.captured| == 2
    ensures c.owned[id] == OwnerOf(s.bases[id]) && c.last[id] == LastOwnerOf(s.bases[id])
    ensures AssaultField(id, 0) in c.states && AssaultField(id, 1) in c.states
    ensures but == None ==> c.assaulted[id] == AssaulterOf(s.bases[id]) && Fair(s.bases[id])
    ensures but == None && s.bases[id].Contested? ==> c.states[AssaultField(id, Other(s.bases[id].team))] == 0
    ensures but == None && !s.Ended() && !s.bases[id].Contested? ==> Capture(id) !in c.events
    ensures Agree(c, s, Some(id))
  {
    hide Count;
    if but == None && s.bases[id].Contested? {
      var f := AssaultField(id, Other(s.bases[id].team));
      assert c.states[f] == Displayed(s, f);
    }
    if but == None && !s.Ended() { assert Lookup(c.events, Capture(id)) == Pending(s, Capture(id)); }
  }

  /** A base is captured by the team that assaults it. */
  lemma TakenAgrees(c: Copies, r: Copies, s: Basin, id: BaseId, t: Team)
    requires Agree(c, s, Some(id)) && !s.Ended() && s.bases[id].Contested? && Capture(id) !in c.events
    requires c.states[AssaultField(id, Other(t))] == 0
    requires var n := c.captured[t] + 1;
             r == c.(owned := c.owned[id := Some(t)], assaulted := c.assaulted[id := None], last := c.last[id := Some(t)],
                     captured := c.captured[t := n], states := ShowTaken(c.states, id, t, n), events := ScheduleTaken(c.events, t, n))
    ensures Agree(r, WithBase(s, id, Held(t)), None)
  {
    hide Count, ScoresAgree, EventsAgree, FieldsAgree, ShowTaken, ScheduleTaken, BasesAgree, AssaultsAgree;
    ScoresSame(c, r, s, id, Held(t));
    var after := WithBase(s, id, Held(t));
    CountsAfter(c.captured, s, id, Held(t));
    BasesAfter(c, r, s, id, Held(t));
    FieldsTaken(c.states, r.states, s, after, id, t);
    EventsTaken(c.events, r.events, s, id, t);
  }

  /** What is written when an owner loses a base. */
  function Lost(c: Copies, id: BaseId, t: Team): Copies
    requires |c.owned| == NUM_BASES && |c.captured| == 2 && c.captured[t] > 0
  {
    var n := c.captured[t] - 1;
    c.(owned := c.owned[id := None], captured := c.captured[t := n],
       states := ShowLost(c.states, id, t, n), events := ScheduleLost(c.events, t, n))
  }

  /** A base is taken from its owner. */
  lemma LostAgrees(c: Copies, r: Copies, s: Basin, id: BaseId, t: Team, taker: Team)
    requires Agree(c, s, None) && !s.Ended() && s.bases[id] == Held(t)
    requires c.captured[t] > 0 && r == Lost(c, id, t)
    ensures Agree(r, WithBase(s, id, Contested(taker, Some(t))), Some(id))
    ensures r.states[AssaultField(id, 0)] == 0 == r.states[AssaultField(id, 1)]
  {
    hide Count, ScoresAgree, EventsAgree, FieldsAgree, ShowLost, ScheduleLost, BasesAgree, AssaultsAgree;
    var after := WithBase(s, id, Contested(taker, Some(t)));
    BaseFacts(c, s, id, None);
    ScoresSame(c, r, s, id, Contested(taker, Some(t)));
    assert c.last == c.last[id := Some(t)];
    CountsAfter(c.captured, s, id, Contested(taker, Some(t)));
    BasesAfter(c, r, s, id, Contested(taker, Some(t)));
    FieldsLost(c.states, r.states, s, after, id, t, taker);
    EventsLost(c.events, r.events, s, id, t, Contested(taker, Some(t)));
  }

  /** A base is touched for the first time. */
  lemma VirginAgrees(c: Copies, r: Copies, s: Basin, id: BaseId, t: Team)
    requires Agree(c, s, None) && !s.Ended() && s.bases[id].Untouched?
    requires r == c.(states := c.states[NeutralField(id) := 0])
    ensures Agree(r, WithBase(s, id, Contested(t, None)), Some(id))
    ensures r.states[AssaultField(id, 0)] == 0 == r.states[AssaultField(id, 1)]
  {
    hide Count;
    ScoresSame(c, r, s, id, Contested(t, None));
    hide ScoresAgree;
    assert Lookup(c.events, Capture(id)) == Pending(s, Capture(id));
    CountsAfter(c.captured, s, id, Contested(t, None));
    FieldsVirgin(c.states, s, id, Contested(t, None));
    EventsStopped(c.events, s, id, Contested(t, None));
    assert c.events - {Capture(id)} == c.events;
    assert c.owned == c.owned[id := None] && c.last == c.last[id := None];
    BasesAfter(c, r, s, id, Contested(t, None));
  }

  lemma FieldsVirgin(states: map<Field, nat>, s: Basin, id: BaseId, b: Base)
    requires s.Shape() && FieldsAgree(states, s, None) && s.bases[id].Untouched? && b.Contested?
    ensures FieldsAgree(states[NeutralField(id) := 0], WithBase(s, id, b), Some(id))
    ensures forall o: Team :: states[AssaultField(id, o)] == 0
  {
    hide Count;
    CountUpdate(s.bases, id, b, 0);
    CountUpdate(s.bases, id, b, 1);
    forall o: Team ensures states[AssaultField(id, o)] == 0 {
      assert states[AssaultField(id, o)] == Displayed(s, AssaultField(id, o));
    }
  }

  /** The capture timer of a contested base is stopped and an assault field cleared. */
  lemma StoppedAgrees(c: Copies, r: Copies, s: Basin, id: BaseId, t: Team, cleared: Team)
    requires Agree(c, s, Some(id)) && !s.Ended() && s.bases[id].Contested?
    requires r == c.(assaulted := c.assaulted[id := Some(t)], states := c.states[AssaultField(id, cleared) := 0],
                     events := c.events - {Capture(id)})
    ensures Agree(r, WithBase(s, id, Contested(t, s.bases[id].last)), Some(id))
  {
    hide Count;
    var b := Contested(t, s.bases[id].last);
    ScoresSame(c, r, s, id, b);
    hide ScoresAgree, FieldsAgree;
    CountUpdate(s.bases, id, b, 0);
    CountUpdate(s.bases, id, b, 1);
    assert c.owned == c.owned[id := None] && c.last == c.last[id := b.last];
    BasesAfter(c, c, s, id, b);
    EventsStopped(c.events, s, id, b);
    FieldsStopped(c.states, s, id, b, cleared);
  }

  lemma FieldsStopped(states: map<Field, nat>, s: Basin, id: BaseId, b: Base, cleared: Team)
    requires s.Shape() && FieldsAgree(states, s, Some(id)) && s.bases[id].Contested? && b.Contested?
    ensures FieldsAgree(states[AssaultField(id, cleared) := 0], WithBase(s, id, b), Some(id))
  {
    hide Count;
    CountUpdate(s.bases, id, b, 0);
    CountUpdate(s.bases, id, b, 1);
  }

  lemma EventsStopped(events: map<EventKey, Timer>, s: Basin, id: BaseId, b: Base)
    requires s.Shape() && EventsAgree(events, s, Some(id)) && !s.bases[id].Held? && b.Contested?
    ensures EventsAgree(events - {Capture(id)}, WithBase(s, id, b), Some(id))
  {
    hide Count;
    var r := WithBase(s, id, b);
    CountUpdate(s.bases, id, b, 0);
    CountUpdate(s.bases, id, b, 1);
    forall k: EventKey | k != Capture(id) ensures Lookup(events - {Capture(id)}, k) == Pending(r, k) {
      assert Lookup(events, k) == Pending(s, k);
    }
  }

  /** A contested base gets its timer and its assault field. */
  lemma StartedAgrees(c: Copies, r: Copies, s: Basin, id: BaseId, t: Team)
    requires Agree(c, s, Some(id)) && !s.Ended() && s.bases[id].Contested? && s.bases[id].team == t && Fair(s.bases[id])
    requires c.states[AssaultField(id, Other(t))] == 0
    requires r == c.(assaulted := c.assaulted[id := Some(t)], states := c.states[AssaultField(id, t) := 1],
                     events := c.events[Capture(id) := Timer(CAPTURE_DELAY, 1, t)])
    ensures Agree(r, s, None)
  {
    hide Count, FieldsAgree, EventsAgree;
    ShownAndTimed(c.states, c.events, s, id);
  }

  lemma ShownAndTimed(states: map<Field, nat>, events: map<EventKey, Timer>, s: Basin, id: BaseId)
    requires s.Shape() && FieldsAgree(states, s, Some(id)) && EventsAgree(events, s, Some(id)) && s.bases[id].Contested?
    requires states[AssaultField(id, Other(s.bases[id].team))] == 0
    ensures FieldsAgree(states[AssaultField(id, s.bases[id].team) := 1], s, None)
    ensures EventsAgree(events[Capture(id) := Timer(CAPTURE_DELAY, 1, s.bases[id].team)], s, None)
  {
    hide Count;
    var now := events[Capture(id) := Timer(CAPTURE_DELAY, 1, s.bases[id].team)];
    forall k: EventKey ensures Lookup(now, k) == Pending(s, k) {
      if k != Capture(id) { assert Lookup(events, k) == Pending(s, k); }
    }
    var shown := states[AssaultField(id, s.bases[id].team) := 1];
    forall f: Field ensures f in shown && shown[f] == Displayed(s, f) {
      if f == AssaultField(id, Other(s.bases[id].team)) { assert states[f] == 0; }
    }
  }

  lemma TimerAgrees(c: Copies, s: Basin, id: BaseId)
    requires Agree(c, s, None) && Capture(id) in c.events
    ensures !s.Ended() && s.bases[id].Contested? && c.events[Capture(id)].team == s.bases[id].team
    ensures Agree(c.(events := c.events - {Capture(id)}), s, Some(id))
    ensures c.states[AssaultField(id, Other(s.bases[id].team))] == 0
  {
    hide Count, EventsAgree, FieldsAgree;
    EventsFired(c.events, s, id);
    FieldZero(c.states, s, id);
  }

  lemma EventsFired(events: map<EventKey, Timer>, s: Basin, id: BaseId)
    requires s.Shape() && EventsAgree(events, s, None)
    ensures Capture(id) in events ==> s.bases[id].Contested? && events[Capture(id)].team == s.bases[id].team
    ensures EventsAgree(events - {Capture(id)}, s, Some(id))
  {
    hide Count;
    assert Lookup(events, Capture(id)) == Pending(s, Capture(id));
    forall k: EventKey | k != Capture(id) ensures Lookup(events - {Capture(id)}, k) == Pending(s, k) {
      assert Lookup(events, k) == Pending(s, k);
    }
  }

  lemma FieldZero(states: map<Field, nat>, s: Basin, id: BaseId)
    requires s.Shape() && FieldsAgree(states, s, None)
    ensures FieldsAgree(states, s, Some(id))
    ensures s.bases[id].Contested? ==> states[AssaultField(id, Other(s.bases[id].team))] == 0
  {
    hide Count;
    if s.bases[id].Contested? {
      assert states[AssaultField(id, Other(s.bases[id].team))] == Displayed(s, AssaultField(id, Other(s.bases[id].team)));
    }
  }

  lemma GrownFacts(c: Copies, s: Basin, t: Team)
    requires Agree(c, s, None) && Resources(t) in c.events
    ensures !s.Ended() && Inv(s) && Count(s.bases, t) > 0 && GiveResources(s, t) == Step(s, ResourceTimer(t))
    ensures |c.captured| == |c.resources| == 2
    ensures c.captured[t] == Count(s.bases, t) && c.resources[t] == s.resources[t]
    ensures Count(s.bases, t) <= 5
    ensures var gained := s.resources[t] + PointBonus(Count(s.bases, t));
            GiveResources(s, t).resources[t] == if gained > RESOURCES_WINVAL then RESOURCES_WINVAL else gained
  {
    hide Count, FieldsAgree;
    assert Lookup(c.events, Resources(t)) == Pending(s, Resources(t));
    CountBound(s.bases);
  }

  lemma ScoreFacts(c: Copies, s: Basin, t: Team)
    requires s.Shape() && ScoresAgree(c, s)
    ensures |c.resources| == |c.lastHonor| == 2
    ensures c.resources[t] == s.resources[t] && c.lastHonor[t] <= s.resources[t]
  {
  }


  lemma ScoresGrown(c: Copies, r: Copies, s: Basin, t: Team, now: nat, paid: bool)
    requires s.Shape() && ScoresAgree(c, s) && Inv(s) && !s.Ended() && Count(s.bases, t) > 0
    requires now == GiveResources(s, t).resources[t] && paid == (now - c.lastHonor[t] >= c.step)
    requires r.step == c.step && r.resources == c.resources[t := now]
    requires r.lastHonor == if paid then c.lastHonor[t := c.lastHonor[t] + c.step] else c.lastHonor
    requires r.loser == if now == RESOURCES_WINVAL then Some(Other(t)) else c.loser
    ensures ScoresAgree(r, GiveResources(s, t))
    ensures paid <==> GiveResources(s, t).payouts != s.payouts
  {
    GiveResourcesKeeps(s, t);
    assert Scores(GiveResources(s, t));
    GiveResourcesIs(s, t);
    NextMark(HonorStep(s.weekend), s.payouts[t]);
    hide Count, Scores, Inv, GiveResources, HonorStep;
  }

  /** A resource event of a team with bases, field by field. */
  lemma GiveResourcesIs(s: Basin, t: Team)
    requires s.Shape() && Count(s.bases, t) > 0
    ensures var (g, step) := (GiveResources(s, t), HonorStep(s.weekend));
            var now := g.resources[t];
            && g.weekend == s.weekend && g.resources == s.resources[t := now] && step > 0
            && g.payouts == (if now >= step * s.payouts[t] + step then s.payouts[t := s.payouts[t] + 1] else s.payouts)
            && g.loser == if now == RESOURCES_WINVAL then Some(Other(t)) else s.loser
  {
    hide Count;
  }

  lemma NextMark(step: nat, n: nat)
    ensures step * (n + 1) == step * n + step
  {
  }

  lemma SameBases(states: map<Field, nat>, events: map<EventKey, Timer>, s: Basin, r: Basin, t: Team)
    requires s.Shape() && r.Shape() && r.bases == s.bases && r.resources == s.resources[t := r.resources[t]]
    requires FieldsAgree(states, s, None) && EventsAgree(events, s, None)
    ensures FieldsAgree(states[ResourceField(t) := r.resources[t]], r, None) && EventsAgree(events, r, None)
  {
    hide Count;
    forall k: EventKey ensures Lookup(events, k) == Pending(r, k) {
      assert Lookup(events, k) == Pending(s, k);
    }
  }

  /** The resource event of team `t` is due and leads to `now`. */
  ghost predicate Growing(c: Copies, s: Basin, t: Team, now: nat) {
    Agree(c, s, None) && Inv(s) && !s.Ended() && Count(s.bases, t) > 0 && now == GiveResources(s, t).resources[t]
  }

  /** What is written then. */
  function Grown(c: Copies, t: Team, now: nat, paid: bool): Copies
    requires |c.resources| == |c.lastHonor| == 2
  {
    c.(resources := c.resources[t := now], states := c.states[ResourceField(t) := now],
       lastHonor := if paid then c.lastHonor[t := c.lastHonor[t] + c.step] else c.lastHonor,
       loser := if now == RESOURCES_WINVAL then Some(Other(t)) else c.loser,
       events := if now == RESOURCES_WINVAL then map[] else c.events)
  }

  /** A team's resources grow, perhaps to the winning value. */
  lemma GrownAgrees(c: Copies, s: Basin, t: Team, now: nat, paid: bool)
    requires Growing(c, s, t, now) && paid == (now - c.lastHonor[t] >= c.step)
    ensures Agree(Grown(c, t, now, paid), GiveResources(s, t), None)
    ensures paid <==> GiveResources(s, t).payouts != s.payouts
  {
    var r := Grown(c, t, now, paid);
    ScoresGrown(c, r, s, t, now, paid);
    var g := GiveResources(s, t);
    assert g.resources == s.resources[t := g.resources[t]] && g.loser == r.loser;
    hide Count, ScoresAgree, GiveResources, FieldsAgree, EventsAgree;
    SameBases(c.states, c.events, s, g, t);
  }

  // ---- What the agreement means for the copies themselves --------------------------------

  /** How many bases an owner array gives to team `t`. */
  function Owned(owned: seq<Option<Team>>, t: Team): nat {
    if owned == [] then 0 else Owned(owned[1..], t) + if owned[0] == Some(t) then 1 else 0
  }

  lemma {:induction false} OwnedIsCount(owned: seq<Option<Team>>, last: seq<Option<Team>>, bases: seq<Base>, t: Team)
    requires BasesAgree(owned, last, bases)
    ensures Owned(owned, t) == Count(bases, t)
  {
    if bases != [] {
      assert owned[0] == OwnerOf(bases[0]);
      assert BasesAgree(owned[1..], last[1..], bases[1..]);
      OwnedIsCount(owned[1..], last[1..], bases[1..], t);
    }
  }

  /** No base is both owned and assaulted, an assaulting team was not the last owner, and a base
      that was ever owned or is assaulted is exactly one of the two. */
  lemma ArraysInAgreement(c: Copies, s: Basin, b: BaseId)
    requires Agree(c, s, None)
    ensures |c.owned| == |c.assaulted| == |c.last| == NUM_BASES
    ensures c.owned[b].None? || c.assaulted[b].None?
    ensures c.assaulted[b].Some? ==> c.last[b] != c.assaulted[b]
    ensures c.last[b].Some? ==> c.owned[b].Some? || c.assaulted[b].Some?
    ensures c.owned[b].Some? ==> c.last[b] == c.owned[b]
  {
    hide Count, FieldsAgree, EventsAgree, ScoresAgree;
  }

  /** A base counter is the number of bases owned; until the end a resource event is pending exactly
      if there are any, with the interval of that number. */
  lemma CountersInAgreement(c: Copies, s: Basin, t: Team)
    requires Agree(c, s, None)
    ensures |c.captured| == 2 && c.captured[t] == Owned(c.owned, t)
    ensures !s.Ended() ==> (Resources(t) in c.events <==> c.captured[t] > 0)
    ensures c.captured[t] <= 5
    ensures Resources(t) in c.events ==> c.events[Resources(t)] == Timer([0, 12000, 9000, 6000, 3000, 1000][c.captured[t]], 0, t)
  {
    OwnedIsCount(c.owned, c.last, s.bases, t);
    CountBound(s.bases);
    hide Count, FieldsAgree, ScoresAgree, AssaultsAgree;
    if !s.Ended() { assert Lookup(c.events, Resources(t)) == Pending(s, Resources(t)); }
  }

  /** Until the end a capture timer is pending exactly if its base is assaulted, for that team. */
  lemma TimersInAgreement(c: Copies, s: Basin, b: BaseId)
    requires Agree(c, s, None) && !s.Ended()
    ensures |c.assaulted| == NUM_BASES && (Capture(b) in c.events <==> c.assaulted[b].Some?)
    ensures Capture(b) in c.events ==> c.events[Capture(b)] == Timer(60000, 1, c.assaulted[b].value)
  {
    hide Count, FieldsAgree, ScoresAgree;
    assert Lookup(c.events, Capture(b)) == Pending(s, Capture(b));
  }

  /** The displayed fields are a function of the arrays. */
  lemma FieldsInAgreement(c: Copies, s: Basin, b: BaseId, t: Team)
    requires Agree(c, s, None)
    ensures |c.owned| == |c.assaulted| == NUM_BASES && |c.captured| == |c.resources| == 2
    ensures forall f: Field :: f in c.states
    ensures c.states[NeutralField(b)] == if c.owned[b].None? && c.assaulted[b].None? then 1 else 0
    ensures c.states[AssaultField(b, t)] == if c.assaulted[b] == Some(t) then 1 else 0
    ensures c.states[OwnedField(b, t)] == if c.owned[b] == Some(t) then 1 else 0
    ensures c.states[CaptureBaseField(t)] == c.captured[t] && c.states[ResourceField(t)] == c.resources[t]
  {
    hide Count, EventsAgree;
    assert c.resources == s.resources;
    hide ScoresAgree;
    assert c.states[NeutralField(b)] == Displayed(s, NeutralField(b));
    assert c.states[AssaultField(b, t)] == Displayed(s, AssaultField(b, t));
    assert c.states[OwnedField(b, t)] == Displayed(s, OwnedField(b, t));
    assert c.states[CaptureBaseField(t)] == Displayed(s, CaptureBaseField(t));
    assert c.states[ResourceField(t)] == Displayed(s, ResourceField(t));
  }

  lemma WithBaseTwice(s: Basin, id: BaseId, t: Team)
    requires s.Shape() && !s.Ended()
    ensures Step(s, TakeFlag(t, id)) == WithBase(s, id, Assault(s.bases[id], t))
    ensures forall a, b :: WithBase(WithBase(s, id, a), id, b) == WithBase(s, id, b)
    ensures forall a :: WithBase(s, id, a).bases[id] == a
  {
    hide Count;
  }

  class ArathiBasin {
    const resToGainBH: nat
    var basesOwnedBy: seq<Option<Team>>
    var basesAssaultedBy: seq<Option<Team>>
    var basesLastOwnedBy: seq<Option<Team>>
    var capturedBases: seq<nat>
    var resources: seq<nat>
    var lastHonorGainResources: seq<nat>
    var losingTeam: Option<Team>
    var events: map<EventKey, Timer>
    var worldStates: map<Field, nat>
    ghost var model: Basin

    ghost function View(): Copies
      reads this
    {
      Copies(resToGainBH, basesOwnedBy, basesAssaultedBy, basesLastOwnedBy, capturedBases,
             resources, lastHonorGainResources, losingTeam, events, worldStates)
    }

    ghost predicate Valid()
      reads this
    {
      Agree(View(), model, None)
    }

    constructor (weekend: bool)
      ensures Valid() && model == NewBasin(weekend)
    {
      resToGainBH := HonorStep(weekend);
      basesOwnedBy := seq(NUM_BASES, _ => None);
      basesAssaultedBy := seq(NUM_BASES, _ => None);
      basesLastOwnedBy := seq(NUM_BASES, _ => None);
      capturedBases, resources, lastHonorGainResources := [0, 0], [0, 0], [0, 0];
      losingTeam, events, worldStates := None, map[], InitialStates();
      model := NewBasin(weekend);
      new;
      InitialAgrees(View(), weekend);
    }

    /** The two guards never refuse a timer, but the assault of a defender relies on neither. */
    method CaptureControlPoint(id: BaseId, team: Team)
      requires Agree(View(), model, Some(id)) && Capture(id) !in events && !model.Ended()
      requires basesAssaultedBy[id] == AssaulterOf(model.bases[id])
      requires worldStates[AssaultField(id, Other(team))] == 0
      modifies this
      ensures if old(model.bases[id].Contested? && model.bases[id].team == team)
              then Valid() && model == WithBase(old(model), id, Held(team))
              else model == old(model) && unchanged(this)
    {
      hide Count;
      BaseFacts(View(), model, id, Some(id));
      hide Agree;
      if basesOwnedBy[id] != None { return; }
      if basesAssaultedBy[id] != Some(team) { return; }
      Take(id, team);
    }

    /** The three arrays of a base that team `team` has captured. */
    method Hold(id: BaseId, team: Team)
      requires |basesOwnedBy| == |basesAssaultedBy| == |basesLastOwnedBy| == NUM_BASES
      modifies `basesOwnedBy, `basesAssaultedBy, `basesLastOwnedBy
      ensures View() == old(View()).(owned := old(basesOwnedBy)[id := Some(team)], assaulted := old(basesAssaultedBy)[id := None],
                                     last := old(basesLastOwnedBy)[id := Some(team)])
    {
      basesLastOwnedBy := basesLastOwnedBy[id := Some(team)];
      basesOwnedBy := basesOwnedBy[id := Some(team)];
      basesAssaultedBy := basesAssaultedBy[id := None];
    }

    method Take(id: BaseId, team: Team)
      requires Agree(View(), model, Some(id)) && Capture(id) !in events && !model.Ended()
      requires model.bases[id].Contested? && worldStates[AssaultField(id, Other(team))] == 0
      modifies this
      ensures Valid() && model == WithBase(old(model), id, Held(team))
    {
      hide Count;
      Lengths(View(), model, id);
      hide Agree, ShowTaken, ScheduleTaken, WithBase;
      ghost var before := View();
      Hold(id, team);
      var captured := capturedBases[team] + 1;
      capturedBases, worldStates := capturedBases[team := captured], ShowTaken(worldStates, id, team, captured);
      events := ScheduleTaken(events, team, captured);
      TakenAgrees(before, View(), model, id, team);
      model := WithBase(model, id, Held(team));
    }

    /** The capture timer fires once. */
    method FireCapture(id: BaseId)
      requires Valid() && Capture(id) in events
      modifies this
      ensures Valid() && model == Step(old(model), CaptureTimer(id))
      ensures old(basesAssaultedBy[id]) == Some(old(events[Capture(id)].team)) == basesOwnedBy[id]
    {
      hide Count;
      var team := events[Capture(id)].team;
      events := events - {Capture(id)};
      TimerAgrees(old(View()), model, id);
      CaptureControlPoint(id, team);
    }

    /** The resource timer of a team; `paid` is whether its players receive bonus honor. */
    method EventUpdateResources(team: Team) returns (paid: bool)
      requires Valid() && Resources(team) in events
      modifies this
      ensures Valid() && model == Step(old(model), ResourceTimer(team))
      ensures paid <==> model.payouts != old(model.payouts)
    {
      GrownFacts(View(), model, team);
      hide Agree, Count, HonorStep, GiveResources, Step;
      var currentBases := if capturedBases[team] > 5 then 5 else capturedBases[team];
      var currentResources := resources[team] + PointBonus(currentBases);
      if currentResources == resources[team] { return false; }
      if currentResources > RESOURCES_WINVAL { currentResources := RESOURCES_WINVAL; }
      paid := SetResources(team, currentResources);
    }

    /** The new value is stored, paid for, shown and compared with the winning value. */
    method SetResources(team: Team, now: nat) returns (paid: bool)
      requires Growing(View(), model, team, now)
      modifies this
      ensures Valid() && model == GiveResources(old(model), team)
      ensures paid <==> model.payouts != old(model.payouts)
    {
      ScoreFacts(View(), model, team);
      hide Agree, Growing, GiveResources;
      paid := now - lastHonorGainResources[team] >= resToGainBH;
      GrownAgrees(View(), model, team, now, paid);
      hide Grown;
      Store(team, now, paid);
      model := GiveResources(model, team);
    }

    /** The writes: the value, the mark of the last payout, the display and the end. */
    method Store(team: Team, now: nat, paid: bool)
      requires |resources| == |lastHonorGainResources| == 2
      modifies this
      ensures View() == Grown(old(View()), team, now, paid) && model == old(model)
    {
      resources := resources[team := now];
      if paid {
        lastHonorGainResources := lastHonorGainResources[team := lastHonorGainResources[team] + resToGainBH];
      }
      worldStates := worldStates[ResourceField(team) := now];
      if now == RESOURCES_WINVAL {
        losingTeam, events := Some(Other(team)), map[];
      }
    }

    method AssaultControlPoint(team: Team, id: BaseId)
      requires Valid() && !model.Ended()
      modifies this
      ensures Valid() && model == Step(old(model), TakeFlag(team, id))
    {
      hide Count;
      BaseFacts(View(), model, id, None);
      WithBaseTwice(model, id, team);
      hide Agree, Step, WithBase;
      var isVirgin := basesOwnedBy[id] == None && basesAssaultedBy[id] == None;
      if isVirgin {
        Touch(team, id);
      }
      if basesOwnedBy[id] != None {
        Uncontrol(id, team);
      }
      if !isVirgin && basesLastOwnedBy[id] == Some(team) && basesOwnedBy[id] == None {
        Defend(team, id);
        return;
      }
      if basesAssaultedBy[id] != None {
        Hijack(team, id);
      }
      Claim(team, id);
    }

    /** The new assault is recorded, shown and timed. */
    method Claim(team: Team, id: BaseId)
      requires Agree(View(), model, Some(id)) && !model.Ended()
      requires model.bases[id].Contested? && model.bases[id].team == team && Fair(model.bases[id])
      requires worldStates[AssaultField(id, Other(team))] == 0
      modifies this
      ensures Valid() && model == old(model)
    {
      hide Count;
      basesAssaultedBy := basesAssaultedBy[id := Some(team)];
      worldStates := worldStates[AssaultField(id, team) := 1];
      events := events[Capture(id) := Timer(CAPTURE_DELAY, 1, team)];
      StartedAgrees(old(View()), View(), model, id, team);
    }

    /** A neutral base loses its icon. */
    method Touch(team: Team, id: BaseId)
      requires Valid() && !model.Ended() && model.bases[id].Untouched?
      modifies this
      ensures Agree(View(), model, Some(id)) && basesAssaultedBy == old(basesAssaultedBy)
      ensures model == WithBase(old(model), id, Contested(team, None))
      ensures worldStates[AssaultField(id, 0)] == 0 == worldStates[AssaultField(id, 1)]
    {
      hide Count;
      worldStates := worldStates[NeutralField(id) := 0];
      VirginAgrees(old(View()), View(), model, id, team);
      model := WithBase(model, id, Contested(team, None));
    }

    /** The last owner has its base back at once. */
    method Defend(team: Team, id: BaseId)
      requires Agree(View(), model, Some(id)) && !model.Ended()
      requires model.bases[id].Contested? && model.bases[id].last == Some(team)
      requires worldStates[AssaultField(id, team)] == 0
      modifies this
      ensures Valid() && model == WithBase(old(model), id, Held(team))
    {
      Lengths(View(), model, id);
      WithBaseTwice(model, id, team);
      hide Count, Agree, WithBase, Step;
      worldStates := worldStates[AssaultField(id, Other(team)) := 0];
      events := events - {Capture(id)};
      basesAssaultedBy := basesAssaultedBy[id := Some(team)];
      StoppedAgrees(old(View()), View(), model, id, team, Other(team));
      model := WithBase(model, id, Contested(team, Some(team)));
      CaptureControlPoint(id, team);
    }

    /** The pending capture of an assaulted base is called off. */
    method Hijack(team: Team, id: BaseId)
      requires Agree(View(), model, Some(id)) && !model.Ended()
      requires model.bases[id].Contested? && basesAssaultedBy[id] == Some(model.bases[id].team)
      modifies this
      ensures Agree(View(), model, Some(id))
      ensures model == WithBase(old(model), id, Contested(team, old(model.bases[id].last)))
      ensures basesAssaultedBy[id] == Some(team) && Capture(id) !in events
      ensures worldStates == old(worldStates)[AssaultField(id, old(model.bases[id].team)) := 0]
    {
      hide Count;
      var owner := basesAssaultedBy[id].value;
      basesAssaultedBy := basesAssaultedBy[id := Some(team)];
      worldStates := worldStates[AssaultField(id, owner) := 0];
      events := events - {Capture(id)};
      StoppedAgrees(old(View()), View(), model, id, team, owner);
      model := WithBase(model, id, Contested(team, model.bases[id].last));
    }

    /** The owner loses a base: its fields, its count and its resource event. */
    method Uncontrol(id: BaseId, team: Team)
      requires Valid() && !model.Ended() && model.bases[id].Held?
      modifies this
      ensures Agree(View(), model, Some(id)) && basesAssaultedBy == old(basesAssaultedBy)
      ensures model == WithBase(old(model), id, Contested(team, Some(old(model.bases[id].team))))
      ensures worldStates[AssaultField(id, 0)] == 0 == worldStates[AssaultField(id, 1)]
    {
      hide Count;
      BaseFacts(View(), model, id, None);
      CountsAfter(capturedBases, model, id, Untouched);
      var owner := basesOwnedBy[id].value;
      LostAgrees(View(), Lost(View(), id, owner), model, id, owner, team);
      hide Agree, Lost, WithBase, CountsAgree;
      GiveUp(id, owner);
      model := WithBase(model, id, Contested(team, Some(owner)));
    }

    /** The writes: the owner, its count, the display and the resource event. */
    method GiveUp(id: BaseId, owner: Team)
      requires |basesOwnedBy| == NUM_BASES && |capturedBases| == 2 && capturedBases[owner] > 0
      modifies this
      ensures View() == Lost(old(View()), id, owner) && model == old(model)
    {
      basesOwnedBy := basesOwnedBy[id := None];
      capturedBases := capturedBases[owner := capturedBases[owner] - 1];
      worldStates := ShowLost(worldStates, id, owner, capturedBases[owner]);
      events := ScheduleLost(events, owner, capturedBases[owner]);
    }
  }
}
