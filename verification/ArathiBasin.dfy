/** Arathi Basin's control points and resources. The source keeps the state of a base in three
    arrays and repeats it in base counters, pending events and the displayed world states.
    `Basin` is the state without the copies; `ArathiBasin` keeps them all, and its Valid() says
    that every copy is the one `Basin` determines. */
module ArathiBasinModel {
  import opened Wrappers

  /** 0 is the Alliance, 1 the Horde. */
  type Team = t: nat | t < 2

  const NUM_BASES: nat := 5
  const RESOURCES_WINVAL: nat := 1600
  const CAPTURE_DELAY: nat := 60000

  type BaseId = b: nat | b < NUM_BASES

  function Other(t: Team): Team { 1 - t }

  /** ResourceUpdateIntervals, in milliseconds by number of bases. */
  function Interval(bases: nat): nat {
    match bases
    case 0 => 0
    case 1 => 12000
    case 2 => 9000
    case 3 => 6000
    case 4 => 3000
    case _ => 1000
  }

  /** PointBonusPerUpdate, with the count capped at five. */
  function PointBonus(bases: nat): nat {
    if bases == 0 then 0 else if bases < 5 then 10 else 30
  }

  /** m_resToGainBH. */
  function HonorStep(weekend: bool): nat { if weekend then 200 else 330 }

  /** A base that nobody has touched, that `team` is capturing (`last` held it before), or that
      `team` holds. */
  datatype Base = Untouched | Contested(team: Team, last: Option<Team>) | Held(team: Team)

  datatype Basin = Basin(weekend: bool, bases: seq<Base>, resources: seq<nat>, payouts: seq<nat>, loser: Option<Team>) {
    predicate Shape() { |bases| == NUM_BASES && |resources| == 2 && |payouts| == 2 }

    predicate Ended() { loser.Some? }
  }

  function Count(bases: seq<Base>, t: Team): nat {
    if bases == [] then 0 else Count(bases[1..], t) + (if bases[0] == Held(t) then 1 else 0)
  }

  lemma {:induction false} CountUpdate(bases: seq<Base>, i: nat, b: Base, t: Team)
    requires i < |bases|
    ensures Count(bases[i := b], t) + (if bases[i] == Held(t) then 1 else 0)
         == Count(bases, t) + (if b == Held(t) then 1 else 0)
  {
    if i == 0 {
      assert bases[0 := b][1..] == bases[1..];
    } else {
      assert bases[i := b][1..] == bases[1..][i - 1 := b];
      CountUpdate(bases[1..], i - 1, b, t);
    }
  }

  lemma {:induction false} CountPositive(bases: seq<Base>, i: nat, t: Team)
    requires i < |bases| && bases[i] == Held(t)
    ensures Count(bases, t) > 0
  {
    if i > 0 { CountPositive(bases[1..], i - 1, t); }
  }

  /** The two teams never count more bases than there are. */
  lemma {:induction false} CountBound(bases: seq<Base>)
    ensures Count(bases, 0) + Count(bases, 1) <= |bases|
  {
    if bases != [] { CountBound(bases[1..]); }
  }

  // ---- The rules -------------------------------------------------------------------------

  function NewBasin(weekend: bool): Basin {
    Basin(weekend, seq(NUM_BASES, _ => Untouched), [0, 0], [0, 0], None)
  }

  /** A player of team `t` takes the flag of a base. */
  function Assault(b: Base, t: Team): Base {
    match b
    case Untouched => Contested(t, None)
    case Contested(_, last) => if last == Some(t) then Held(t) else Contested(t, last)
    case Held(owner) => if owner == t then b else Contested(t, Some(owner))
  }

  function GiveResources(s: Basin, t: Team): Basin
    requires s.Shape()
  {
    var gained := s.resources[t] + PointBonus(Count(s.bases, t));
    var now := if gained > RESOURCES_WINVAL then RESOURCES_WINVAL else gained;
    var pays := gained != s.resources[t] && now - HonorStep(s.weekend) * s.payouts[t] >= HonorStep(s.weekend);
    s.(resources := s.resources[t := now],
       payouts := if pays then s.payouts[t := s.payouts[t] + 1] else s.payouts,
       loser := if gained != s.resources[t] && now == RESOURCES_WINVAL then Some(Other(t)) else s.loser)
  }

  datatype Event = TakeFlag(team: Team, base: BaseId) | CaptureTimer(base: BaseId) | ResourceTimer(team: Team)

  /** A timer that is not pending does not fire; nothing happens after the end. */
  function Step(s: Basin, ev: Event): (r: Basin)
    requires s.Shape()
    ensures r.Shape()
  {
    if s.Ended() then s
    else match ev
      case TakeFlag(t, b) => s.(bases := s.bases[b := Assault(s.bases[b], t)])
      case CaptureTimer(b) => if s.bases[b].Contested? then s.(bases := s.bases[b := Held(s.bases[b].team)]) else s
      case ResourceTimer(t) => if Count(s.bases, t) > 0 then GiveResources(s, t) else s
  }

  function Run(weekend: bool, evs: seq<Event>): (r: Basin)
    ensures r.Shape()
    decreases |evs|
  {
    if evs == [] then NewBasin(weekend) else Step(Run(weekend, evs[..|evs| - 1]), evs[|evs| - 1])
  }

  /** An assaulting team was not the last owner. */
  predicate Fair(b: Base) { b.Contested? ==> b.last != Some(b.team) }

  ghost predicate Scores(s: Basin)
    requires s.Shape()
  {
    && (forall t: Team :: s.resources[t] <= RESOURCES_WINVAL && s.payouts[t] == s.resources[t] / HonorStep(s.weekend))
    && (s.Ended() <==> s.resources[0] == RESOURCES_WINVAL || s.resources[1] == RESOURCES_WINVAL)
    && (s.Ended() ==> s.resources[Other(s.loser.value)] == RESOURCES_WINVAL && s.resources[s.loser.value] < RESOURCES_WINVAL)
  }

  ghost predicate Inv(s: Basin) {
    s.Shape() && Scores(s) && forall b: BaseId :: Fair(s.bases[b])
  }

  /** A payout follows each time the resources pass a multiple of the step. */
  lemma Payout(r: nat, now: nat, weekend: bool)
    requires r <= now <= r + 30
    ensures var step := HonorStep(weekend);
            now / step == if now - step * (r / step) >= step then r / step + 1 else r / step
  {
    if weekend { assert 0 <= r - 200 * (r / 200) < 200; } else { assert 0 <= r - 330 * (r / 330) < 330; }
  }

  lemma GiveResourcesKeeps(s: Basin, t: Team)
    requires Inv(s) && !s.Ended()
    ensures Inv(GiveResources(s, t))
  {
    hide HonorStep;
    Payout(s.resources[t], GiveResources(s, t).resources[t], s.weekend);
    assert GiveResources(s, t).resources[Other(t)] == s.resources[Other(t)];
  }

  /** Main invariant: in every run an assaulting team was never the last owner, resources stay
      within 1600, the number of bonus-honor payouts is resources / step, and the battle is over
      exactly when one team, not the recorded loser, has reached 1600. */
  lemma {:induction false} RunKeeps(weekend: bool, evs: seq<Event>)
    ensures Inv(Run(weekend, evs))
    ensures Run(weekend, evs).weekend == weekend
    decreases |evs|
  {
    if evs != [] {
      var s := Run(weekend, evs[..|evs| - 1]);
      RunKeeps(weekend, evs[..|evs| - 1]);
      var ev := evs[|evs| - 1];
      if !s.Ended() && ev.ResourceTimer? && Count(s.bases, ev.team) > 0 {
        GiveResourcesKeeps(s, ev.team);
      }
    }
  }

  lemma StepGrows(s: Basin, ev: Event, t: Team)
    requires s.Shape()
    ensures s.resources[t] <= RESOURCES_WINVAL ==> s.resources[t] <= Step(s, ev).resources[t]
    ensures s.payouts[t] <= Step(s, ev).payouts[t] <= s.payouts[t] + 1
  {
  }

  /** Resources and payouts never decrease, and no step pays a team twice. */
  lemma {:induction false} Monotone(weekend: bool, evs: seq<Event>, more: seq<Event>, t: Team)
    ensures Run(weekend, evs).resources[t] <= Run(weekend, evs + more).resources[t]
    ensures Run(weekend, evs).payouts[t] <= Run(weekend, evs + more).payouts[t] <= Run(weekend, evs).payouts[t] + |more|
    decreases |more|
  {
    if more == [] {
      assert evs + more == evs;
    } else {
      var before := evs + more[..|more| - 1];
      Monotone(weekend, evs, more[..|more| - 1], t);
      assert (evs + more)[..|evs + more| - 1] == before;
      RunKeeps(weekend, before);
      StepGrows(Run(weekend, before), more[|more| - 1], t);
    }
  }

  /** A base once touched never becomes neutral again. */
  lemma {:induction false} TouchedForever(weekend: bool, evs: seq<Event>, more: seq<Event>, b: BaseId)
    requires !Run(weekend, evs).bases[b].Untouched?
    ensures !Run(weekend, evs + more).bases[b].Untouched?
    decreases |more|
  {
    if more == [] {
      assert evs + more == evs;
    } else {
      TouchedForever(weekend, evs, more[..|more| - 1], b);
      assert (evs + more)[..|evs + more| - 1] == evs + more[..|more| - 1];
    }
  }

  // ---- The copies ------------------------------------------------------------------------

  function OwnerOf(b: Base): Option<Team> { if b.Held? then Some(b.team) else None }

  function AssaulterOf(b: Base): Option<Team> { if b.Contested? then Some(b.team) else None }

  function LastOwnerOf(b: Base): Option<Team> {
    match b
    case Untouched => None
    case Contested(_, last) => last
    case Held(team) => Some(team)
  }

  datatype EventKey = Resources(team: Team) | Capture(base: BaseId)

  /** A pending event: how often it comes due, how often it fires (0 is for ever), its argument. */
  datatype Timer = Timer(period: nat, repeats: nat, team: Team)

  datatype Field =
    | NeutralField(base: BaseId)
    | AssaultField(base: BaseId, team: Team)
    | OwnedField(base: BaseId, team: Team)
    | CaptureBaseField(team: Team)
    | ResourceField(team: Team)

  function Bit(b: bool): nat { if b then 1 else 0 }

  /** The displayed value of a field, as a function of the battle. */
  function Displayed(s: Basin, f: Field): nat
    requires s.Shape()
  {
    match f
    case NeutralField(b) => Bit(s.bases[b].Untouched?)
    case AssaultField(b, t) => Bit(AssaulterOf(s.bases[b]) == Some(t))
    case OwnedField(b, t) => Bit(OwnerOf(s.bases[b]) == Some(t))
    case CaptureBaseField(t) => Count(s.bases, t)
    case ResourceField(t) => s.resources[t]
  }

  /** The event pending under a key, if any, as a function of the battle. */
  function Pending(s: Basin, k: EventKey): Option<Timer>
    requires s.Shape()
  {
    match k
    case Resources(t) => if Count(s.bases, t) > 0 then Some(Timer(Interval(Count(s.bases, t)), 0, t)) else None
    case Capture(b) => if s.bases[b].Contested? then Some(Timer(CAPTURE_DELAY, 1, s.bases[b].team)) else None
  }
}
