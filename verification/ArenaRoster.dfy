/** Arena teams and the pointers of their members back to them, one for each type of team. */
module ArenaRoster {
  import opened Wrappers

  type TeamId = nat
  type PlayerId = nat

  /** 0, 1 and 2 are the types 2v2, 3v3 and 5v5. */
  type Kind = k: nat | k < 3

  function Slots(k: Kind): nat { if k == 0 then 4 else if k == 1 then 6 else 10 }

  /** The occupied slots of a team, in order. */
  datatype Team = Team(kind: Kind, roster: seq<PlayerId>)

  datatype World = World(teams: map<TeamId, Team>, pointers: map<PlayerId, seq<Option<TeamId>>>)

  predicate Shape(w: World) { forall p :: p in w.pointers ==> |w.pointers[p]| == 3 }

  function Point(w: World, p: PlayerId, k: Kind, t: Option<TeamId>): World
    requires Shape(w) && p in w.pointers
  {
    w.(pointers := w.pointers[p := w.pointers[p][k := t]])
  }

  /** AddMember: it does not look at the pointer that it overwrites. */
  function Add(w: World, t: TeamId, p: PlayerId): (r: World)
    requires Shape(w) && t in w.teams && p in w.pointers
    ensures Shape(r) && r.teams.Keys == w.teams.Keys && r.pointers.Keys == w.pointers.Keys
  {
    var team := w.teams[t];
    if |team.roster| >= Slots(team.kind) then w
    else Point(w.(teams := w.teams[t := team.(roster := team.roster + [p])]), p, team.kind, Some(t))
  }

  /** The first slot of a player is closed and those behind it move up. */
  function RemoveFirst<T(==)>(roster: seq<T>, p: T): seq<T> {
    if roster == [] then [] else if roster[0] == p then roster[1..] else [roster[0]] + RemoveFirst(roster[1..], p)
  }

  function Remove(w: World, t: TeamId, p: PlayerId): (r: World)
    requires Shape(w) && t in w.teams && p in w.pointers
    ensures Shape(r) && r.teams.Keys == w.teams.Keys && r.pointers.Keys == w.pointers.Keys
  {
    var team := w.teams[t];
    if p !in team.roster then w
    else Point(w.(teams := w.teams[t := team.(roster := RemoveFirst(team.roster, p))]), p, team.kind, None)
  }

  function RemoveEach(w: World, t: TeamId, ps: seq<PlayerId>): (r: World)
    requires Shape(w) && t in w.teams && forall p :: p in ps ==> p in w.pointers
    ensures Shape(r) && r.teams.Keys == w.teams.Keys && r.pointers.Keys == w.pointers.Keys
    decreases |ps|
  {
    if ps == [] then w else RemoveEach(Remove(w, t, ps[0]), t, ps[1..])
  }

  /** Destroy: the roster is copied, each member removed, and the team deleted. */
  function Destroy(w: World, t: TeamId): (r: World)
    requires Shape(w) && t in w.teams && forall p :: p in w.teams[t].roster ==> p in w.pointers
    ensures Shape(r)
  {
    var left := RemoveEach(w, t, w.teams[t].roster);
    left.(teams := left.teams - {t})
  }

  function AddEach(w: World, t: TeamId, ps: seq<PlayerId>): (r: World)
    requires Shape(w) && t in w.teams
    ensures Shape(r) && r.teams.Keys == w.teams.Keys && r.pointers.Keys == w.pointers.Keys
    decreases |ps|
  {
    if ps == [] then w else AddEach(if ps[0] in w.pointers then Add(w, t, ps[0]) else w, t, ps[1..])
  }

  // ---- Agreement -------------------------------------------------------------------------

  /** A player points at a team exactly if it occupies a slot of it. */
  ghost predicate PairAgrees(w: World, t: TeamId, p: PlayerId)
    requires Shape(w) && t in w.teams && p in w.pointers
  {
    w.pointers[p][w.teams[t].kind] == Some(t) <==> p in w.teams[t].roster
  }

  ghost predicate NoTwice(roster: seq<PlayerId>) {
    forall i, j :: 0 <= i < j < |roster| ==> roster[i] != roster[j]
  }

  ghost predicate Agree(w: World) {
    && Shape(w)
    && (forall t :: t in w.teams ==> NoTwice(w.teams[t].roster) && |w.teams[t].roster| <= Slots(w.teams[t].kind))
    && (forall t, p :: t in w.teams && p in w.teams[t].roster ==> p in w.pointers)
    && (forall t, p :: t in w.teams && p in w.pointers ==> PairAgrees(w, t, p))
    && (forall p, k: Kind :: p in w.pointers && w.pointers[p][k].Some? ==>
          w.pointers[p][k].value in w.teams && w.teams[w.pointers[p][k].value].kind == k)
  }

  predicate Full(w: World, t: TeamId)
    requires t in w.teams
  {
    |w.teams[t].roster| >= Slots(w.teams[t].kind)
  }

  /** Adding keeps the agreement exactly if the team is full, so that nothing happens, or the
      player is in no team of the type. */
  lemma AddIff(w: World, t: TeamId, p: PlayerId)
    requires Agree(w) && t in w.teams && p in w.pointers
    ensures Agree(Add(w, t, p)) <==> Full(w, t) || w.pointers[p][w.teams[t].kind] == None
  {
    if !Full(w, t) {
      var r, k := Add(w, t, p), w.teams[t].kind;
      if w.pointers[p][k] == None {
        AddAgrees(w, t, p);
      } else {
        AddDisagrees(w, t, p);
      }
    }
  }

  lemma AddAgrees(w: World, t: TeamId, p: PlayerId)
    requires Agree(w) && t in w.teams && p in w.pointers && !Full(w, t) && w.pointers[p][w.teams[t].kind] == None
    ensures Agree(Add(w, t, p))
  {
    var r := Add(w, t, p);
    assert PairAgrees(w, t, p);
    forall u, q | u in r.teams && q in r.pointers ensures PairAgrees(r, u, q) { assert PairAgrees(w, u, q); }
  }

  /** Whom the addition puts in disagreement. */
  lemma AddDisagrees(w: World, t: TeamId, p: PlayerId)
    requires Agree(w) && t in w.teams && p in w.pointers && !Full(w, t) && w.pointers[p][w.teams[t].kind].Some?
    ensures var (r, u) := (Add(w, t, p), w.pointers[p][w.teams[t].kind].value);
            if u == t then !NoTwice(r.teams[t].roster) else u in r.teams && !PairAgrees(r, u, p)
  {
    var r, k := Add(w, t, p), w.teams[t].kind;
    var u := w.pointers[p][k].value;
    assert PairAgrees(w, u, p);
    if u == t {
      var i :| 0 <= i < |w.teams[t].roster| && w.teams[t].roster[i] == p;
      assert r.teams[t].roster[i] == r.teams[t].roster[|w.teams[t].roster|];
    }
  }

  lemma {:induction false} RemoveFirstMembers(roster: seq<PlayerId>, p: PlayerId)
    requires NoTwice(roster)
    ensures NoTwice(RemoveFirst(roster, p)) && |RemoveFirst(roster, p)| <= |roster|
    ensures forall q :: q in RemoveFirst(roster, p) <==> q in roster && q != p
  {
    if roster != [] {
      RemoveFirstMembers(roster[1..], p);
      assert forall q :: q in roster <==> q == roster[0] || q in roster[1..];
      if roster[0] != p {
        var rest := RemoveFirst(roster[1..], p);
        assert roster[0] !in rest;
        assert forall i :: 0 < i <= |rest| ==> ([roster[0]] + rest)[i] == rest[i - 1];
        forall i, j | 0 <= i < j <= |rest| ensures ([roster[0]] + rest)[i] != ([roster[0]] + rest)[j] {
          assert ([roster[0]] + rest)[j] in rest;
        }
      }
    }
  }

  lemma RemoveAgrees(w: World, t: TeamId, p: PlayerId)
    requires Agree(w) && t in w.teams && p in w.pointers
    ensures Agree(Remove(w, t, p)) && p !in Remove(w, t, p).teams[t].roster
    ensures forall q :: q in Remove(w, t, p).teams[t].roster <==> q in w.teams[t].roster && q != p
  {
    var r := Remove(w, t, p);
    RemoveFirstMembers(w.teams[t].roster, p);
    hide RemoveFirst, NoTwice;
    assert PairAgrees(w, t, p);
    forall u, q | u in r.teams && q in r.pointers ensures PairAgrees(r, u, q) { assert PairAgrees(w, u, q); }
  }

  lemma {:induction false} RemoveEachAgrees(w: World, t: TeamId, ps: seq<PlayerId>)
    requires Agree(w) && t in w.teams && forall p :: p in ps ==> p in w.pointers
    ensures Agree(RemoveEach(w, t, ps))
    ensures forall q :: q in RemoveEach(w, t, ps).teams[t].roster <==> q in w.teams[t].roster && q !in ps
    decreases |ps|
  {
    hide Agree, Remove;
    if ps != [] {
      RemoveAgrees(w, t, ps[0]);
      AgreeShape(w);
      RemoveEachAgrees(Remove(w, t, ps[0]), t, ps[1..]);
      assert forall q :: q in ps <==> q == ps[0] || q in ps[1..];
    }
  }

  lemma AgreeShape(w: World)
    requires Agree(w)
    ensures Shape(w)
  {
  }

  /** Destroying a team keeps the agreement and clears every pointer to it. */
  lemma DestroyAgrees(w: World, t: TeamId)
    requires Agree(w) && t in w.teams
    ensures Agree(Destroy(w, t)) && Destroy(w, t).teams.Keys == w.teams.Keys - {t}
    ensures forall p, k: Kind :: p in Destroy(w, t).pointers ==> Destroy(w, t).pointers[p][k] != Some(t)
  {
    var left := RemoveEach(w, t, w.teams[t].roster);
    var r := Destroy(w, t);
    RemoveEachAgrees(w, t, w.teams[t].roster);
    hide RemoveEach;
    forall p, k: Kind | p in left.pointers ensures left.pointers[p][k] != Some(t) { assert PairAgrees(left, t, p); }
    forall u, q | u in r.teams && q in r.pointers ensures PairAgrees(r, u, q) { assert PairAgrees(left, u, q); }
  }

  /** The others keep their order. */
  lemma {:induction false} RemoveFirstShifts<T>(roster: seq<T>, p: T, i: nat)
    requires i < |roster| && roster[i] == p && forall j :: 0 <= j < i ==> roster[j] != p
    ensures RemoveFirst(roster, p) == roster[..i] + roster[i + 1..]
  {
    if i > 0 { RemoveFirstShifts(roster[1..], p, i - 1); }
  }

  // ---- Charters --------------------------------------------------------------------------

  /** Every signer that gets a slot is in no team of the type at that time. */
  ghost predicate Sound(w: World, t: TeamId, ps: seq<PlayerId>)
    requires Shape(w) && t in w.teams
    decreases |ps|
  {
    ps == []
    || (if ps[0] !in w.pointers then Sound(w, t, ps[1..])
        else Full(w, t) || (w.pointers[ps[0]][w.teams[t].kind] == None && Sound(Add(w, t, ps[0]), t, ps[1..])))
  }

  /** A disagreement that adding to team `t` cannot mend. */
  ghost predicate Broken(w: World, t: TeamId)
    requires Shape(w) && t in w.teams
  {
    || !NoTwice(w.teams[t].roster)
    || exists u, p :: u in w.teams && u != t && p in w.pointers && p in w.teams[u].roster && w.pointers[p][w.teams[u].kind] != Some(u)
  }

  lemma BrokenDisagrees(w: World, t: TeamId)
    requires Shape(w) && t in w.teams && Broken(w, t)
    ensures !Agree(w)
  {
    if NoTwice(w.teams[t].roster) {
      var u, p :| u in w.teams && u != t && p in w.pointers && p in w.teams[u].roster && w.pointers[p][w.teams[u].kind] != Some(u);
      assert !PairAgrees(w, u, p);
    }
  }

  lemma BrokenStays(w: World, t: TeamId, q: PlayerId)
    requires Shape(w) && t in w.teams && q in w.pointers && Broken(w, t)
    ensures Broken(Add(w, t, q), t)
  {
    var r := Add(w, t, q);
    if !NoTwice(w.teams[t].roster) {
      var i, j :| 0 <= i < j < |w.teams[t].roster| && w.teams[t].roster[i] == w.teams[t].roster[j];
      assert r.teams[t].roster[i] == r.teams[t].roster[j];
    } else {
      var u, p :| u in w.teams && u != t && p in w.pointers && p in w.teams[u].roster && w.pointers[p][w.teams[u].kind] != Some(u);
      assert u in r.teams && p in r.teams[u].roster && r.pointers[p][r.teams[u].kind] != Some(u);
    }
  }

  lemma {:induction false} BrokenForGood(w: World, t: TeamId, ps: seq<PlayerId>)
    requires Shape(w) && t in w.teams && Broken(w, t)
    ensures !Agree(AddEach(w, t, ps))
    decreases |ps|
  {
    hide Broken, Agree, Add;
    if ps == [] {
      BrokenDisagrees(w, t);
    } else {
      if ps[0] in w.pointers { BrokenStays(w, t, ps[0]); }
      BrokenForGood(if ps[0] in w.pointers then Add(w, t, ps[0]) else w, t, ps[1..]);
    }
  }

  lemma {:induction false} FullStays(w: World, t: TeamId, ps: seq<PlayerId>)
    requires Shape(w) && t in w.teams && Full(w, t)
    ensures AddEach(w, t, ps) == w
    decreases |ps|
  {
    if ps != [] { FullStays(w, t, ps[1..]); }
  }

  /** Turning a charter in keeps the agreement exactly if each signer that gets a slot is free. */
  lemma {:induction false} AddEachIff(w: World, t: TeamId, ps: seq<PlayerId>)
    requires Agree(w) && t in w.teams
    ensures Agree(AddEach(w, t, ps)) <==> Sound(w, t, ps)
    decreases |ps|
  {
    if ps != [] && ps[0] in w.pointers {
      AddIff(w, t, ps[0]);
      var r, k := Add(w, t, ps[0]), w.teams[t].kind;
      if Full(w, t) {
        FullStays(w, t, ps);
      } else if w.pointers[ps[0]][k] == None {
        hide Agree, Add;
        AddEachIff(r, t, ps[1..]);
      } else {
        AddDisagrees(w, t, ps[0]);
        assert PairAgrees(w, w.pointers[ps[0]][k].value, ps[0]);
        assert Broken(r, t);
        BrokenForGood(r, t, ps[1..]);
      }
    } else if ps != [] {
      AddEachIff(w, t, ps[1..]);
    }
  }

  // ---- Runs ------------------------------------------------------------------------------

  datatype Event =
    | Accept(team: TeamId, player: PlayerId)
    | Leave(team: TeamId, player: PlayerId)
    | Disband(team: TeamId)
    | Charter(team: TeamId, kind: Kind, leader: PlayerId, signers: seq<PlayerId>)

  ghost predicate CanCharter(w: World, ev: Event)
    requires Shape(w)
  {
    ev.Charter? && ev.team !in w.teams && ev.leader in w.pointers && w.pointers[ev.leader][ev.kind] == None
  }

  /** A new team with its leader. */
  function Found(w: World, t: TeamId, kind: Kind, leader: PlayerId): World
    requires Shape(w) && t !in w.teams && leader in w.pointers
  {
    Add(w.(teams := w.teams[t := Team(kind, [])]), t, leader)
  }

  /** Ids of teams are new; the handlers check what the source's handlers check. */
  ghost function Step(w: World, ev: Event): (r: World)
    requires Agree(w)
    ensures Shape(r)
  {
    match ev
    case Accept(t, p) =>
      if t in w.teams && p in w.pointers && !Full(w, t) && w.pointers[p][w.teams[t].kind] == None then Add(w, t, p) else w
    case Leave(t, p) => if t in w.teams && p in w.pointers then Remove(w, t, p) else w
    case Disband(t) => if t in w.teams then Destroy(w, t) else w
    case Charter(t, kind, leader, signers) =>
      if CanCharter(w, ev) then AddEach(Found(w, t, kind, leader), t, signers) else w
  }

  lemma FoundAgrees(w: World, t: TeamId, kind: Kind, leader: PlayerId)
    requires Agree(w) && t !in w.teams && leader in w.pointers && w.pointers[leader][kind] == None
    ensures Agree(Found(w, t, kind, leader))
  {
    var empty := w.(teams := w.teams[t := Team(kind, [])]);
    forall u, q | u in empty.teams && q in empty.pointers ensures PairAgrees(empty, u, q) {
      if u != t { assert PairAgrees(w, u, q); }
    }
    AddAgrees(empty, t, leader);
  }

  /** Every request but a charter keeps the agreement, and a charter does exactly if its signers
      are free when they are added. */
  lemma StepIff(w: World, ev: Event)
    requires Agree(w)
    ensures Agree(Step(w, ev)) <==> (CanCharter(w, ev) ==> Sound(Found(w, ev.team, ev.kind, ev.leader), ev.team, ev.signers))
  {
    match ev {
      case Accept(t, p) => if t in w.teams && p in w.pointers { AddIff(w, t, p); }
      case Leave(t, p) => if t in w.teams && p in w.pointers { RemoveAgrees(w, t, p); }
      case Disband(t) => if t in w.teams { DestroyAgrees(w, t); }
      case Charter(t, kind, leader, signers) =>
        if CanCharter(w, ev) {
          FoundAgrees(w, t, kind, leader);
          AddEachIff(Found(w, t, kind, leader), t, signers);
        }
    }
  }

  /** A charter's signers are free when they are added; other requests need nothing. */
  ghost predicate SoundEvent(w: World, ev: Event)
    requires Agree(w)
  {
    CanCharter(w, ev) ==> Sound(Found(w, ev.team, ev.kind, ev.leader), ev.team, ev.signers)
  }

  ghost predicate SoundRun(w: World, evs: seq<Event>)
    requires Agree(w)
    decreases |evs|
  {
    StepIff(w, if evs == [] then Disband(0) else evs[0]);
    evs == [] || (SoundEvent(w, evs[0]) && SoundRun(Step(w, evs[0]), evs[1..]))
  }

  ghost function Run(w: World, evs: seq<Event>): World
    requires Agree(w) && SoundRun(w, evs)
    decreases |evs|
  {
    StepIff(w, if evs == [] then Disband(0) else evs[0]);
    if evs == [] then w else Run(Step(w, evs[0]), evs[1..])
  }

  /** Over every run whose charters are sound rosters and pointers agree. */
  lemma {:induction false} RunAgrees(w: World, evs: seq<Event>)
    requires Agree(w) && SoundRun(w, evs)
    ensures Agree(Run(w, evs))
    decreases |evs|
  {
    if evs != [] {
      StepIff(w, evs[0]);
      RunAgrees(Step(w, evs[0]), evs[1..]);
    }
  }

  /** Accepting an invitation takes the next slot, if one of the 4, 6 or 10 is free and the player is in
      no team of the type. */
  lemma AcceptIs(w: World, t: TeamId, p: PlayerId)
    requires Agree(w) && t in w.teams && p in w.pointers
    ensures var (team, r) := (w.teams[t], Step(w, Accept(t, p)));
            if |team.roster| < [4, 6, 10][team.kind] && w.pointers[p][team.kind] == None
            then r.teams == w.teams[t := team.(roster := team.roster + [p])]
                 && r.pointers == w.pointers[p := w.pointers[p][team.kind := Some(t)]]
            else r == w
  {
  }

  /** A charter makes a team whose first slot is the leader's. */
  lemma CharterIs(w: World, t: TeamId, kind: Kind, leader: PlayerId)
    requires Agree(w) && t !in w.teams && leader in w.pointers
    ensures var r := Step(w, Charter(t, kind, leader, []));
            if w.pointers[leader][kind] == None
            then r.teams == w.teams[t := Team(kind, [leader])] && r.pointers == w.pointers[leader := w.pointers[leader][kind := Some(t)]]
            else r == w
  {
    assert [] + [leader] == [leader];
  }

  /** Leaving a team frees a player that had a slot of it, and nobody else. */
  lemma LeaveIs(w: World, t: TeamId, p: PlayerId)
    requires Agree(w) && t in w.teams && p in w.pointers
    ensures var (kind, r) := (w.teams[t].kind, Step(w, Leave(t, p)));
            && r.pointers == (if p in w.teams[t].roster then w.pointers[p := w.pointers[p][kind := None]] else w.pointers)
            && t in r.teams && forall q :: q in r.teams[t].roster <==> q in w.teams[t].roster && q != p
  {
    RemoveAgrees(w, t, p);
  }

  /** Player 1 is in team 7, player 2 in none. */
  ghost function OneTeam(): (w: World)
    ensures Agree(w) && CanCharter(w, Charter(8, 0, 2, [1]))
  {
    var w := World(map[7 := Team(0, [1])], map[1 := [Some(7), None, None], 2 := [None, None, None]]);
    assert forall t, p :: t in w.teams && p in w.pointers ==> PairAgrees(w, t, p);
    w
  }

  lemma OneSigned()
    ensures !Sound(Found(OneTeam(), 8, 0, 2), 8, [1])
  {
    var f := Found(OneTeam(), 8, 0, 2);
    assert f.pointers[1][f.teams[8].kind] == Some(7);
  }

  /** A charter need not be sound: player 1 signs while in team 7 already. */
  lemma AnUnsoundCharter()
    ensures exists w, ev :: Agree(w) && !SoundEvent(w, ev) && !Agree(Step(w, ev))
  {
    OneSigned();
    hide Agree, Sound, Step, Found, OneTeam;
    StepIff(OneTeam(), Charter(8, 0, 2, [1]));
    assert !SoundEvent(OneTeam(), Charter(8, 0, 2, [1]));
  }
}
