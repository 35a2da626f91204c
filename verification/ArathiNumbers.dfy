/** Arathi Basin told by its arrays and in numbers. */
module ArathiNumbers {
  import opened Wrappers
  import opened ArathiBasinModel
  import opened ArathiBattle

  lemma {:induction false} CountIs(bases: seq<Base>, t: Team, held: set<nat>)
    requires forall b :: b in held <==> 0 <= b < |bases| && bases[b] == Held(t)
    ensures Count(bases, t) == |held|
    decreases |held|
  {
    if held == {} {
      NoneHeld(bases, t);
    } else {
      var b :| b in held;
      CountUpdate(bases, b, Untouched, t);
      CountIs(bases[b := Untouched], t, held - {b});
    }
  }

  lemma {:induction false} NoneHeld(bases: seq<Base>, t: Team)
    requires forall b :: 0 <= b < |bases| ==> bases[b] != Held(t)
    ensures Count(bases, t) == 0
  {
    if bases != [] { NoneHeld(bases[1..], t); }
  }

  /** A resource event brings a team 10 points with one to four bases and 30 with all five, up to 1600;
      bonus honor is paid when that passes a multiple of 330, or of 200 on a holiday weekend; and
      with 1600 the other team has lost. */
  lemma TickIs(s: Basin, t: Team, held: set<nat>)
    requires Inv(s) && !s.Ended() && forall b :: b in held <==> 0 <= b < 5 && s.bases[b] == Held(t)
    ensures |held| <= 5
    ensures var (r, step) := (Step(s, ResourceTimer(t)), if s.weekend then 200 else 330);
            var now := s.resources[t] + [0, 10, 10, 10, 10, 30][|held|];
            && r.bases == s.bases && r.weekend == s.weekend && r.resources == s.resources[t := if now < 1600 then now else 1600]
            && r.payouts == s.payouts[t := r.resources[t] / step]
            && r.loser == if now >= 1600 then Some(1 - t) else None
  {
    CountIs(s.bases, t, held);
    CountBound(s.bases);
    if |held| > 0 {
      GiveResourcesKeeps(s, t);
      assert Scores(GiveResources(s, t));
      hide HonorStep;
    }
  }

  /** In every run the payouts are the multiples of 330, or 200, that the resources have passed. */
  lemma ScoresInEveryRun(weekend: bool, evs: seq<Event>, t: Team)
    ensures var s := Run(weekend, evs);
            && s.resources[t] <= 1600 && s.payouts[t] == s.resources[t] / (if weekend then 200 else 330)
            && (s.loser == None <==> s.resources[0] < 1600 && s.resources[1] < 1600)
            && (s.loser == Some(t) ==> s.resources[1 - t] == 1600)
  {
    RunKeeps(weekend, evs);
  }

  /** What a player who takes a flag does to the arrays: the last owner has its base back at once,
      any other team assaults it from now on; other bases and all last owners stay. */
  lemma AssaultIs(c: Copies, r: Copies, s: Basin, t: Team, id: BaseId, b: BaseId)
    requires Agree(c, s, None) && !s.Ended() && Agree(r, Step(s, TakeFlag(t, id)), None)
    ensures |c.owned| == |c.assaulted| == |c.last| == |r.owned| == |r.assaulted| == |r.last| == NUM_BASES
    ensures r.last[b] == c.last[b]
    ensures if b != id then r.owned[b] == c.owned[b] && r.assaulted[b] == c.assaulted[b]
            else if c.last[b] == Some(t) then r.owned[b] == Some(t) && r.assaulted[b] == None
            else r.owned[b] == None && r.assaulted[b] == Some(t)
  {
    hide Count, FieldsAgree, EventsAgree, ScoresAgree;
  }

  /** What a due capture timer does to them: the assaulting team owns the base. */
  lemma CaptureIs(c: Copies, r: Copies, s: Basin, id: BaseId, b: BaseId)
    requires Agree(c, s, None) && Capture(id) in c.events && Agree(r, Step(s, CaptureTimer(id)), None)
    ensures |c.owned| == |c.assaulted| == |c.last| == |r.owned| == |r.assaulted| == |r.last| == NUM_BASES
    ensures if b != id then r.owned[b] == c.owned[b] && r.assaulted[b] == c.assaulted[b] && r.last[b] == c.last[b]
            else c.assaulted[b].Some? && r.owned[b] == c.assaulted[b] == r.last[b] && r.assaulted[b] == None
  {
    TimerAgrees(c, s, id);
    hide Count, FieldsAgree, EventsAgree, ScoresAgree;
  }

  /** The fields after a resource event of team `t`: points by the number of bases owned, the mark of
      the last honor at a multiple of 330, or 200, and at 1600 the end, with no event left. */
  ghost predicate Ticked(c: Copies, r: Copies, t: Team, weekend: bool) {
    && |c.captured| == |c.resources| == |r.lastHonor| == 2 && c.captured[t] <= 5
    && var now := c.resources[t] + [0, 10, 10, 10, 10, 30][c.captured[t]];
       var left := if now < 1600 then now else 1600;
       && r.resources == c.resources[t := left] && r.owned == c.owned
       && r.lastHonor[t] == (if weekend then 200 * (left / 200) else 330 * (left / 330))
       && (now >= 1600 ==> r.loser == Some(1 - t) && r.events == map[])
       && (now < 1600 ==> r.loser == None)
  }

  lemma ResourcesAre(c: Copies, r: Copies, s: Basin, t: Team)
    requires Agree(c, s, None) && Resources(t) in c.events && Agree(r, Step(s, ResourceTimer(t)), None)
    ensures Ticked(c, r, t, s.weekend)
  {
    hide Agree, Ticked, ScoresAgree, Inv, Step, Count;
    var held := HeldBy(c, s, t);
    TickIs(s, t, held);
    var g := Step(s, ResourceTimer(t));
    SameOwners(c, r, s, g);
    ScoresAre(c, s);
    ScoresAre(r, g);
    TickedFrom(c, r, s, g, t, held);
  }

  lemma HeldBy(c: Copies, s: Basin, t: Team) returns (held: set<nat>)
    requires Agree(c, s, None) && Resources(t) in c.events
    ensures Inv(s) && !s.Ended() && s.Shape() && forall b :: b in held <==> 0 <= b < 5 && s.bases[b] == Held(t)
    ensures |c.captured| == 2 && c.captured[t] == |held|
  {
    GrownFacts(c, s, t);
    hide Agree, Count, Scores;
    held := set b: nat | b < 5 && s.bases[b] == Held(t);
    CountIs(s.bases, t, held);
  }

  lemma TickedFrom(c: Copies, r: Copies, s: Basin, g: Basin, t: Team, held: set<nat>)
    requires s.Shape() && g.Shape() && |c.captured| == |r.lastHonor| == 2 && c.captured[t] == |held| <= 5
    requires c.resources == s.resources && r.resources == g.resources && r.loser == g.loser && r.owned == c.owned
    requires r.lastHonor[t] == if s.weekend then 200 * (g.resources[t] / 200) else 330 * (g.resources[t] / 330)
    requires g.Ended() ==> r.events == map[]
    requires var now := s.resources[t] + [0, 10, 10, 10, 10, 30][|held|];
             g.resources == s.resources[t := if now < 1600 then now else 1600] && g.loser == if now >= 1600 then Some(1 - t) else None
    ensures Ticked(c, r, t, s.weekend)
  {
  }

  /** The score fields say what the battle's scores are. */
  lemma ScoresAre(c: Copies, s: Basin)
    requires Agree(c, s, None)
    ensures s.Shape() && c.resources == s.resources && c.loser == s.loser && |c.lastHonor| == 2
    ensures forall t: Team :: c.lastHonor[t] == if s.weekend then 200 * (s.resources[t] / 200) else 330 * (s.resources[t] / 330)
    ensures s.Ended() ==> c.events == map[]
  {
    hide Count, FieldsAgree, EventsAgree, BasesAgree, AssaultsAgree, CountsAgree;
  }

  lemma SameOwners(c: Copies, r: Copies, s: Basin, g: Basin)
    requires Agree(c, s, None) && Agree(r, g, None) && g.bases == s.bases
    ensures r.owned == c.owned
  {
    hide Count, FieldsAgree, EventsAgree, ScoresAgree;
  }
}
