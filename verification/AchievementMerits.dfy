/** What a completed achievement has to show for itself, in terms of counters, times and factions. */
module AchievementMerits {
  import opened Achievements

  /** Every counter has moved, the faction fits unless there is no criterion to ask, each criterion
      that must be met has its count in time, and of those that may replace one another one has. */
  ghost predicate Deserved(t: Table, s: Session, a: Id)
    requires Wf(t, s) && a in s.player.data
  {
    var (ach, d) := (t.achievements[a], s.player.data[a]);
    var n := |ach.criteria|;
    && !ach.statistic && !s.player.gm
    && (forall i :: 0 <= i < n ==> d.counters[i] > 0)
    && (n > 0 ==> !(ach.faction == AllianceOnly && s.player.team == 1) && !(ach.faction == HordeOnly && s.player.team == 0))
    && (forall i :: 0 <= i < n && !t.criteria[ach.criteria[i]].completeOne ==>
          var c := t.criteria[ach.criteria[i]];
          d.counters[i] >= c.required && (c.timeLimit == 0 || c.timeLimit >= d.timeLast))
    && ((exists i :: 0 <= i < n && t.criteria[ach.criteria[i]].completeOne) ==>
        exists i :: 0 <= i < n && t.criteria[ach.criteria[i]].completeOne &&
          var c := t.criteria[ach.criteria[i]];
          d.counters[i] >= c.required && (c.timeLimit == 0 || c.timeLimit >= d.timeLast))
  }

  /** Between two states: a completed achievement keeps its counters as they were when it was
      completed, and one completed since then deserved it. */
  ghost predicate Merits(t: Table, s: Session, r: Session) {
    && Wf(t, s) && Wf(t, r) && r.player.gm == s.player.gm && r.player.team == s.player.team
    && (forall a :: a in s.player.data && s.player.data[a].completed ==> a in r.player.data && r.player.data[a] == s.player.data[a])
    && (forall a :: a in r.player.data && r.player.data[a].completed ==>
          (a in s.player.data && s.player.data[a].completed) || Deserved(t, r, a))
  }

  lemma SameDeserved(t: Table, s: Session, r: Session, a: Id)
    requires Wf(t, s) && Wf(t, r) && r.player.gm == s.player.gm && r.player.team == s.player.team
    requires a in s.player.data && a in r.player.data && r.player.data[a].counters == s.player.data[a].counters
    requires r.player.data[a].timeLast == s.player.data[a].timeLast && Deserved(t, s, a)
    ensures Deserved(t, r, a)
  {
  }

  lemma MeritsTwice(t: Table, s: Session, m: Session, r: Session)
    requires Merits(t, s, m) && Merits(t, m, r)
    ensures Merits(t, s, r)
  {
    forall a | a in r.player.data && r.player.data[a].completed && !(a in s.player.data && s.player.data[a].completed)
      ensures Deserved(t, r, a)
    {
      if a in m.player.data && m.player.data[a].completed { SameDeserved(t, m, r, a); }
    }
    hide Deserved, Wf;
  }

  lemma CanDeserves(t: Table, s: Session, a: Id)
    requires Wf(t, s) && a in s.player.data && CanComplete(t, s, a)
    ensures Deserved(t, s, a)
  {
    CanCompleteMeans(t, s, a);
    hide CanComplete;
  }

  lemma MarkMerits(t: Table, s: Session, a: Id)
    requires Wf(t, s) && a in s.player.data && CanComplete(t, s, a)
    ensures Merits(t, s, Mark(t, s, a))
  {
    CanDeserves(t, s, a);
    assert !s.player.data[a].completed;
    SameDeserved(t, s, Mark(t, s, a), a);
    hide Deserved, CanComplete;
  }

  lemma TouchMerits(t: Table, s: Session, c: CriterionId)
    requires Wf(t, s) && c in t.criteria && t.criteria[c].referred in t.achievements
    ensures var a := t.criteria[c].referred;
            var tracked := Track(t, s, a);
            Merits(t, s, tracked) && (!tracked.player.data[a].completed ==> Merits(t, s, Bump(t, tracked, a, c)))
  {
    hide Deserved;
  }

  lemma {:induction false} EarnMerits(t: Table, s: Session, a: Id)
    requires Wf(t, s) && a in s.player.data && CanComplete(t, s, a)
    ensures Merits(t, s, Earn(t, s, a))
    decreases |Open(t, s)|, 0
  {
    var marked := Mark(t, s, a);
    MarkMerits(t, s, a);
    OpenShrinks(t, s, marked, a);
    var r := Requiring(t, marked, a, 0);
    RequiringMerits(t, marked, a, 0);
    CrownMerits(t, r, a);
    MeritsTwice(t, s, marked, r);
    hide Merits, CanComplete;
    MeritsTwice(t, s, r, Crown(t, r, a));
  }

  lemma CrownMerits(t: Table, s: Session, a: Id)
    requires Wf(t, s) && a in t.achievements
    ensures Merits(t, s, Crown(t, s, a))
  {
    hide Deserved;
  }

  lemma {:induction false} RequiringMerits(t: Table, s: Session, a: Id, k: nat)
    requires Wf(t, s) && k <= |t.linking|
    ensures Merits(t, s, Requiring(t, s, a, k))
    decreases |Open(t, s)|, 2, |t.linking| - k
  {
    hide Deserved;
    if k < |t.linking| {
      var c := t.criteria[t.linking[k]];
      if c.referred in t.achievements && c.rule == CompleteAchievement(a) {
        var r := Visit(t, s, t.linking[k]);
        VisitMerits(t, s, t.linking[k]);
        OpenGrows(t, s, r);
        RequiringMerits(t, r, a, k + 1);
        hide Merits;
        MeritsTwice(t, s, r, Requiring(t, r, a, k + 1));
      } else {
        RequiringMerits(t, s, a, k + 1);
      }
    }
  }

  lemma {:induction false} VisitMerits(t: Table, s: Session, c: CriterionId)
    requires Wf(t, s) && c in t.criteria && t.criteria[c].referred in t.achievements
    ensures Merits(t, s, Visit(t, s, c))
    decreases |Open(t, s)|, 1
  {
    hide Deserved, Merits;
    var a := t.criteria[c].referred;
    var tracked := Track(t, s, a);
    var bumped := Bump(t, tracked, a, c);
    TouchMerits(t, s, c);
    if !tracked.player.data[a].completed && CanComplete(t, bumped, a) {
      EarnMerits(t, bumped, a);
      MeritsTwice(t, s, bumped, Earn(t, bumped, a));
    }
  }

  lemma {:induction false} KillingMerits(t: Table, s: Session, creature: nat, k: nat)
    requires Wf(t, s) && k <= |t.killing|
    ensures Merits(t, s, Killing(t, s, creature, k))
    decreases |t.killing| - k
  {
    hide Deserved;
    if k < |t.killing| {
      var c := t.criteria[t.killing[k]];
      if c.referred in t.achievements && c.rule == KillCreature(creature) {
        var r := Visit(t, s, t.killing[k]);
        VisitMerits(t, s, t.killing[k]);
        KillingMerits(t, r, creature, k + 1);
        hide Merits;
        MeritsTwice(t, s, r, Killing(t, r, creature, k + 1));
      } else {
        KillingMerits(t, s, creature, k + 1);
      }
    }
  }

  lemma StepMerits(t: Table, w: Realm, ev: Event, p: PlayerId)
    requires AllWf(t, w) && p in w.players
    ensures var r := Step(t, w, ev); p in r.players && Merits(t, At(w, p), At(r, p))
  {
    hide Deserved;
    if ev.player in w.players && ev.player == p {
      match ev {
        case Kill(_, creature) =>
          KillingMerits(t, At(w, p), creature, 0);
          assert At(Step(t, w, ev), p) == Killing(t, At(w, p), creature, 0);
        case Death(_) => hide Mortal, FirstMortal;
        case Group(_, _) =>
      }
    } else {
      assert Step(t, w, ev).players[p] == w.players[p];
    }
  }

  lemma {:induction false} RunMerits(t: Table, w: Realm, evs: seq<Event>, p: PlayerId)
    requires AllWf(t, w) && p in w.players
    ensures var r := Run(t, w, evs); p in r.players && Merits(t, At(w, p), At(r, p))
    decreases |evs|
  {
    if evs == [] {
      hide Deserved;
    } else {
      var before := Run(t, w, evs[..|evs| - 1]);
      RunMerits(t, w, evs[..|evs| - 1], p);
      StepMerits(t, before, evs[|evs| - 1], p);
      hide Merits, Step, Wf;
      MeritsTwice(t, At(w, p), At(before, p), At(Run(t, w, evs), p));
    }
  }

  /** Main theorem: whatever a player earned in a run was deserved, and what it had earned before
      stands as it stood; and of the tracked achievements that are still free to be earned and do not
      forbid a group none is deserved. */
  lemma EarnedIffDeserved(t: Table, w: Realm, evs: seq<Event>, p: PlayerId, a: Id)
    requires Inv(t, w) && p in w.players
    ensures var r := Run(t, w, evs);
            && p in r.players && AllWf(t, r)
            && (a in w.players[p].earned ==> a in r.players[p].earned && a in w.players[p].data && a in r.players[p].data
                                              && r.players[p].data[a] == w.players[p].data[a])
            && (a in r.players[p].earned && a !in w.players[p].earned ==> a in r.players[p].data && Deserved(t, At(r, p), a))
            && (a in r.players[p].data && a !in r.players[p].earned && a !in r.firsts && GroupFree(t, a) ==> !Deserved(t, At(r, p), a))
  {
    RunKeeps(t, w, evs);
    RunMerits(t, w, evs, p);
    var r := Run(t, w, evs);
    hide Run;
    assert Recorded(At(w, p)) && Recorded(At(r, p)) && Quiet(t, At(r, p));
    if a in r.players[p].data && a !in r.players[p].earned && a !in r.firsts && GroupFree(t, a) {
      CanCompleteMeans(t, At(r, p), a);
      hide CanComplete;
    }
    hide Deserved;
  }

  // ---- What a kill counts ----------------------------------------------------------------

  /** How often a kill counts at position `i` of achievement `a`, from the k-th criterion on. */
  ghost function Kills(t: Table, creature: nat, a: Id, i: nat, k: nat): nat
    requires t.Valid() && a in t.achievements && k <= |t.killing|
    decreases |t.killing| - k
  {
    if k == |t.killing| then 0
    else
      var c := t.killing[k];
      Kills(t, creature, a, i, k + 1) + if t.criteria[c].rule == KillCreature(creature) && CountsAt(t, c, a, i) then 1 else 0
  }

  /** A kill counts once for each criterion that asks for that creature, and beyond that only what
      the achievements earned by it count. */
  lemma {:induction false} KillingCounts(t: Table, s: Session, creature: nat, k: nat, a: Id, i: nat)
    requires Wf(t, s) && k <= |t.killing| && a in t.achievements && i < |t.achievements[a].criteria|
    ensures Counted(t, s, Killing(t, s, creature, k), a, i, Kills(t, creature, a, i, k))
    decreases |t.killing| - k
  {
    hide Tally, Plus, Counted, CounterOf, Done, CanComplete;
    if k == |t.killing| {
      CountedNothing(t, s, a, i);
    } else {
      var id := t.killing[k];
      var c := t.criteria[id];
      if c.referred in t.achievements && c.rule == KillCreature(creature) {
        var r := Visit(t, s, id);
        VisitCounts(t, s, id, a, i);
        KillingCounts(t, r, creature, k + 1, a, i);
        CountedTwice(t, s, r, Killing(t, r, creature, k + 1), a, i, if CountsAt(t, id, a, i) then 1 else 0, Kills(t, creature, a, i, k + 1));
      } else {
        KillingCounts(t, s, creature, k + 1, a, i);
      }
    }
  }

  /** A death sets the first counter that has moved and does not survive a death to zero, in each
      achievement that is not completed, and nothing else. */
  lemma DeathResets(t: Table, s: Session, a: Id, i: nat)
    requires Wf(t, s) && a in s.player.data && i < |t.achievements[a].criteria|
    ensures var (d, r, criteria) := (s.player.data[a], Die(t, s).player.data[a], t.achievements[a].criteria);
            && r.completed == d.completed && r.timeLast == d.timeLast && |r.counters| == |d.counters|
            && r.counters[i] == if !d.completed && t.criteria[criteria[i]].noDeath
                                   && forall j :: 0 <= j < i ==> d.counters[j] == 0 || !t.criteria[criteria[j]].noDeath
                                then 0 else d.counters[i]
  {
    var criteria := t.achievements[a].criteria;
    forall j | 0 <= j < |criteria| ensures Mortal(t, s, a, j) <==> s.player.data[a].counters[j] != 0 && t.criteria[criteria[j]].noDeath { }
    hide Mortal;
  }
}
