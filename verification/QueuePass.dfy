/** One whole pass over the queue of a type and level group: sorting the queue into lines, filling
    what exists, creating one battleground more. */
module QueuePass {
  import opened Wrappers
  import opened QueueFiller

  function GetLevelGrouping(level: nat): (g: nat)
    ensures g == if level < 80 then level / 10 else 8
  {
    if level < 10 then 0
    else if level < 20 then 1
    else if level < 30 then 2
    else if level < 40 then 3
    else if level < 50 then 4
    else if level < 60 then 5
    else if level < 70 then 6
    else if level < 80 then 7
    else 8
  }

  /** What the pass reads of a player: `slot` is whether a queue slot is used for the type, `queued`
      whether it still waits, `instanceId` the battleground asked for, 0 for any. */
  datatype Player = Player(level: nat, team: Team, bgTeam: Team, slot: bool, queued: bool, instanceId: nat, gmTag: bool, deserter: bool)

  /** An arena takes nobody once it has started. */
  predicate CanPlayerJoin(b: Instance, p: Player, arena: bool)
    requires b.Shape()
  {
    !(arena && b.started) && (p.gmTag || (HasFreeSlots(b, p.bgTeam) && GetLevelGrouping(p.level) == b.level && !p.deserter))
  }

  function Find(instances: seq<Instance>, id: nat): (k: nat)
    ensures k <= |instances| && (k < |instances| ==> instances[k].id == id)
  {
    if instances == [] || instances[0].id == id then 0 else 1 + Find(instances[1..], id)
  }

  /** What becomes of one entry of the queue. */
  datatype Fate = Dropped | Kept | Joins(k: nat) | Waits(t: Team)

  function FateOf(instances: seq<Instance>, p: Option<Player>, level: nat, arena: bool): (f: Fate)
    requires forall k :: 0 <= k < |instances| ==> instances[k].Shape()
    ensures f.Joins? ==> f.k < |instances| && p.Some? && CanPlayerJoin(instances[f.k], p.value, arena)
  {
    if p.None? || GetLevelGrouping(p.value.level) != level then Dropped
    else if !p.value.slot then Kept
    else if !p.value.queued then Dropped
    else if p.value.instanceId != 0 then
      var k := Find(instances, p.value.instanceId);
      if k < |instances| && CanPlayerJoin(instances[k], p.value, arena) then Joins(k) else Kept
    else Waits(if arena then 0 else p.value.team)
  }

  type Players = map<Guid, Player>

  function Lookup(players: Players, g: Guid): Option<Player> { if g in players then Some(players[g]) else None }

  function SortOne(l: Lobby, g: Guid, players: Players, level: nat, arena: bool): (r: Lobby)
    requires l.Shape()
    ensures r.Shape() && |r.instances| == |l.instances|
  {
    match FateOf(l.instances, Lookup(players, g), level, arena)
    case Dropped => l
    case Kept => l.(queue := l.queue + [g])
    case Joins(k) => l.(instances := l.instances[k := AddPlayer(l.instances[k], g, players[g].team)])
    case Waits(t) => Lobby(l.instances, l.waiting[t := l.waiting[t] + [g]], l.queue + [g])
  }

  /** The loop over the first `n` entries; `l.queue` is what it leaves of them. */
  function Sort(l: Lobby, queue: seq<Guid>, n: nat, players: Players, level: nat, arena: bool): (r: Lobby)
    requires l.Shape() && n <= |queue|
    ensures r.Shape() && |r.instances| == |l.instances|
  {
    if n == 0 then l else SortOne(Sort(l, queue, n - 1, players, level, arena), queue[n - 1], players, level, arena)
  }

  /** A player who is still queued for any battleground of the type and waits in line `t`. */
  predicate WaitsFor(p: Option<Player>, level: nat, arena: bool, t: Team) {
    && p.Some? && GetLevelGrouping(p.value.level) == level && p.value.slot && p.value.queued && p.value.instanceId == 0
    && t == (if arena then 0 else p.value.team)
  }

  /** The line `t` of the first `n` entries: the queue without the others, in the queue's order. */
  function Line(queue: seq<Guid>, n: nat, players: Players, level: nat, arena: bool, t: Team): seq<Guid>
    requires n <= |queue|
  {
    if n == 0 then []
    else Line(queue, n - 1, players, level, arena, t)
         + if WaitsFor(Lookup(players, queue[n - 1]), level, arena, t) then [queue[n - 1]] else []
  }

  lemma {:induction false} SortLines(l: Lobby, queue: seq<Guid>, n: nat, players: Players, level: nat, arena: bool, t: Team)
    requires l.Shape() && l.waiting == [[], []] && n <= |queue|
    ensures Sort(l, queue, n, players, level, arena).waiting[t] == Line(queue, n, players, level, arena, t)
    decreases n
  {
    hide CanPlayerJoin, GetLevelGrouping, AddPlayer, Find;
    if n > 0 { SortLines(l, queue, n - 1, players, level, arena, t); }
  }

  /** A player who asks for a battleground by its id and may join it. */
  predicate Joinable(instances: seq<Instance>, p: Player, arena: bool)
    requires forall k :: 0 <= k < |instances| ==> instances[k].Shape()
  {
    var k := Find(instances, p.instanceId);
    p.instanceId != 0 && k < |instances| && CanPlayerJoin(instances[k], p, arena)
  }

  /** Who is still in the queue after it is sorted: a player of the level group who uses no slot of
      the type, or is still queued and has not joined a battleground by its id. */
  predicate Stays(instances: seq<Instance>, p: Option<Player>, level: nat, arena: bool)
    requires forall k :: 0 <= k < |instances| ==> instances[k].Shape()
  {
    p.Some? && GetLevelGrouping(p.value.level) == level && (p.value.slot ==> p.value.queued && !Joinable(instances, p.value, arena))
  }

  /** The first `n` entries without those who do not stay, in the queue's order. */
  function Staying(l: Lobby, queue: seq<Guid>, n: nat, players: Players, level: nat, arena: bool): seq<Guid>
    requires l.Shape() && n <= |queue|
  {
    if n == 0 then []
    else Staying(l, queue, n - 1, players, level, arena)
         + if Stays(Sort(l, queue, n - 1, players, level, arena).instances, Lookup(players, queue[n - 1]), level, arena) then [queue[n - 1]]
           else []
  }

  lemma {:induction false} SortStaying(l: Lobby, queue: seq<Guid>, n: nat, players: Players, level: nat, arena: bool)
    requires l.Shape() && l.queue == [] && n <= |queue|
    ensures Sort(l, queue, n, players, level, arena).queue == Staying(l, queue, n, players, level, arena)
    decreases n
  {
    hide CanPlayerJoin, GetLevelGrouping, AddPlayer, Find;
    if n > 0 { SortStaying(l, queue, n - 1, players, level, arena); }
  }

  // ---- A battleground asked for by its id ------------------------------------------------

  /** The test asks for room on one side, and the player is put on another one that has none. */
  predicate Overfills(b: Instance, g: Guid, p: Player, arena: bool)
    requires b.Shape()
  {
    CanPlayerJoin(b, p, arena) && !HasFreeSlots(b, p.team) && g !in b.pending[p.team]
  }

  /** A join passes the side's capacity exactly then, and never if the player is no game master and
      is counted on the side that was tested. */
  lemma JoinOverfillsIff(b: Instance, g: Guid, p: Player, arena: bool)
    requires WithinCap(b) && CanPlayerJoin(b, p, arena)
    ensures WithinCap(AddPlayer(b, g, p.team)) <==> !Overfills(b, g, p, arena)
    ensures !p.gmTag && p.bgTeam == p.team ==> !Overfills(b, g, p, arena)
  {
    assert AddPlayer(b, g, p.team).pending[1 - p.team] == b.pending[1 - p.team];
  }

  /** Such a join exists: one side is full, the player asks for it with the other one tested. */
  lemma AJoinThatOverfills()
    ensures exists b, g, p :: WithinCap(b) && Overfills(b, g, p, false) && !p.gmTag
  {
    var b := Instance(7, 1, false, false, false, 1, [1, 0], [{}, {}]);
    var p := Player(10, 0, 1, true, true, 7, false, false);
    assert WithinCap(b) && Overfills(b, 3, p, false) && !p.gmTag;
  }

  /** Some entry of the queue overfills a battleground while the queue is sorted. */
  predicate SortOverfills(l: Lobby, queue: seq<Guid>, n: nat, players: Players, level: nat, arena: bool)
    requires l.Shape() && n <= |queue|
  {
    n > 0
    && (SortOverfills(l, queue, n - 1, players, level, arena)
        || (var m := Sort(l, queue, n - 1, players, level, arena);
            var f := FateOf(m.instances, Lookup(players, queue[n - 1]), level, arena);
            f.Joins? && Overfills(m.instances[f.k], queue[n - 1], players[queue[n - 1]], arena)))
  }

  ghost predicate AllWithin(instances: seq<Instance>) { forall k :: 0 <= k < |instances| ==> WithinCap(instances[k]) }

  lemma JoinStaysOver(b: Instance, g: Guid, t: Team)
    requires b.Shape()
    ensures WithinCap(AddPlayer(b, g, t)) ==> WithinCap(b)
  {
    assert AddPlayer(b, g, t).pending[1 - t] == b.pending[1 - t];
  }

  /** Sorting keeps every side within its capacity exactly if no entry overfills one. */
  lemma {:induction false} SortWithinIff(l: Lobby, queue: seq<Guid>, n: nat, players: Players, level: nat, arena: bool)
    requires l.Shape() && n <= |queue| && AllWithin(l.instances)
    ensures AllWithin(Sort(l, queue, n, players, level, arena).instances) <==> !SortOverfills(l, queue, n, players, level, arena)
    decreases n
  {
    hide WithinCap, CanPlayerJoin, Overfills, AddPlayer;
    if n > 0 {
      SortWithinIff(l, queue, n - 1, players, level, arena);
      var m, g := Sort(l, queue, n - 1, players, level, arena), queue[n - 1];
      var f := FateOf(m.instances, Lookup(players, g), level, arena);
      if f.Joins? {
        var b := AddPlayer(m.instances[f.k], g, players[g].team);
        JoinStaysOver(m.instances[f.k], g, players[g].team);
        if AllWithin(m.instances) {
          JoinOverfillsIff(m.instances[f.k], g, players[g], arena);
          assert WithinCap(b) ==> AllWithin(m.instances[f.k := b]);
        }
        if AllWithin(m.instances[f.k := b]) {
          assert m.instances[f.k := b][f.k] == b;
          forall k | 0 <= k < |m.instances| ensures WithinCap(m.instances[k]) { assert k != f.k ==> m.instances[k] == m.instances[f.k := b][k]; }
        }
      }
    }
  }

  /** Entries that ask for a battleground by its id ask for their own side. */
  predicate Sane(p: Player) { p.instanceId != 0 ==> !p.gmTag && p.bgTeam == p.team }

  lemma {:induction false} SaneNeverOverfills(l: Lobby, queue: seq<Guid>, n: nat, players: Players, level: nat, arena: bool)
    requires l.Shape() && n <= |queue| && AllWithin(l.instances)
    requires forall g :: g in queue && g in players ==> Sane(players[g])
    ensures !SortOverfills(l, queue, n, players, level, arena)
    decreases n
  {
    hide WithinCap, CanPlayerJoin, Overfills, AddPlayer;
    if n > 0 {
      SaneNeverOverfills(l, queue, n - 1, players, level, arena);
      SortWithinIff(l, queue, n - 1, players, level, arena);
      var m, g := Sort(l, queue, n - 1, players, level, arena), queue[n - 1];
      var f := FateOf(m.instances, Lookup(players, g), level, arena);
      if f.Joins? { JoinOverfillsIff(m.instances[f.k], g, players[g], arena); }
    }
  }

  // ---- One battleground more -------------------------------------------------------------

  /** What a pass depends on: `made` is the battleground CreateInstance makes, None if it fails. */
  datatype Setup = Setup(level: nat, arena: bool, minPlayers: nat, force: bool, canCreate: bool, made: Option<Instance>)

  ghost predicate ValidSetup(s: Setup) {
    && (s.made.Some? ==> WithinCap(s.made.value))
    && (s.arena ==> s.made.Some?)
  }

  predicate Starts(waiting: seq<seq<Guid>>, s: Setup)
    requires |waiting| == 2
  {
    if s.arena then (s.force && |waiting[0]| >= 1) || |waiting[0]| >= s.minPlayers
    else (s.force && (|waiting[0]| >= 1 || |waiting[1]| >= 1)) || (|waiting[0]| >= s.minPlayers && |waiting[1]| >= s.minPlayers)
  }

  function FillNew(h: Hall, s: Setup): (r: Hall)
    requires h.Shape()
    ensures r.Shape()
  {
    if s.arena then FillArena(h)
    else if s.force then Side(Side(h, 0), 1)
    else Pairs(h, Smaller(|h.waiting[0]|, |h.waiting[1]|))
  }

  /** When the creation fails everybody who waits is taken off the queue. */
  function Create(l: Lobby, s: Setup): (r: Lobby)
    requires l.Shape() && ValidSetup(s)
    ensures r.Shape() && |r.instances| >= |l.instances|
  {
    if !Starts(l.waiting, s) || !s.canCreate then l
    else
      match s.made
      case None => Lobby(l.instances, [[], []], EraseAll(EraseAll(l.queue, l.waiting[0]), l.waiting[1]))
      case Some(b) =>
        var h := FillNew(Hall(b, l.waiting, l.queue), s);
        Lobby(l.instances + [h.b], h.waiting, h.queue)
  }

  /** The battleground only gains, line `o` loses its first ones, and these are asked. */
  ghost predicate Served(h: Hall, r: Hall, o: Team)
    requires h.Shape() && r.Shape()
  {
    && Gains(h.b, r.b) && Suffix(r.waiting[o], h.waiting[o])
    && forall p :: p in h.waiting[o] && p !in r.waiting[o] ==> Asked(r.b, p)
  }

  lemma ServedTwice(h: Hall, m: Hall, r: Hall, o: Team)
    requires h.Shape() && m.Shape() && r.Shape() && Served(h, m, o) && Served(m, r, o)
    ensures Served(h, r, o)
  {
    GainsTwice(h.b, m.b, r.b);
    hide WithinCap, Size;
  }

  lemma ServedItself(h: Hall, o: Team)
    requires h.Shape()
    ensures Served(h, h, o)
  {
    GainsItself(h.b);
    hide Gains, Asked;
  }

  lemma TakeOutcome(h: Hall, t: Team, o: Team)
    requires h.Shape() && h.waiting[t] != []
    ensures Served(h, Take(h, t), o)
  {
    if HasFreeSlots(h.b, t) {
      TakeFills(h, t);
      hide Take;
      var r := Take(h, t);
      forall p | p in h.waiting[o] && p !in r.waiting[o] ensures Asked(r.b, p) {
        assert h.waiting[t] == [h.waiting[t][0]] + h.waiting[t][1..];
      }
    } else {
      GainsItself(h.b);
    }
  }

  lemma {:induction false} PairsOutcome(h: Hall, n: nat, o: Team)
    requires h.Shape() && n <= |h.waiting[0]| && n <= |h.waiting[1]|
    ensures Served(h, Pairs(h, n), o)
    decreases n
  {
    hide Take, HasFreeSlots, Served, Gains, Asked, IsFull, Suffix, WithinCap;
    if n > 0 && !IsFull(h.b) {
      var one := Take(h, 0);
      TakeOther(h, 0);
      TakeOutcome(h, 0, o);
      var two := Take(one, 1);
      TakeOther(one, 1);
      TakeOutcome(one, 1, o);
      PairsOutcome(two, n - 1, o);
      ServedTwice(h, one, two, o);
      ServedTwice(h, two, Pairs(two, n - 1), o);
    } else {
      ServedItself(h, o);
    }
  }

  lemma TakeErases(h: Hall, t: Team)
    requires h.Shape() && h.waiting[t] != []
    ensures Erased(h.waiting, h.queue, Take(h, t).waiting, Take(h, t).queue)
  {
    var r := Take(h, t);
    if HasFreeSlots(h.b, t) {
      TakeFills(h, t);
      hide Take, Erased, Erase, HasFreeSlots;
      assert Gone(h.waiting, r.waiting, t) == [h.waiting[t][0]];
      EraseAllSingle(h.queue, h.waiting[t][0]);
      assert r.waiting == h.waiting[t := h.waiting[t][1..]] by { TakeLines(h, t); }
      ErasedOne(h.waiting, h.queue, r.waiting, r.queue, t);
    } else {
      ErasedNothing(h.waiting, h.queue);
    }
  }

  lemma TakeLines(h: Hall, t: Team)
    requires h.Shape() && h.waiting[t] != [] && HasFreeSlots(h.b, t)
    ensures Take(h, t).waiting == h.waiting[t := h.waiting[t][1..]]
  {
  }

  lemma EraseAllSingle(queue: seq<Guid>, p: Guid)
    ensures EraseAll(queue, [p]) == Erase(queue, p)
  {
    assert [p][1..] == [];
  }

  lemma {:induction false} PairsErases(h: Hall, n: nat)
    requires h.Shape() && n <= |h.waiting[0]| && n <= |h.waiting[1]|
    ensures Erased(h.waiting, h.queue, Pairs(h, n).waiting, Pairs(h, n).queue)
    decreases n
  {
    hide Take, HasFreeSlots, IsFull, Erased;
    if n > 0 && !IsFull(h.b) {
      var one := Take(h, 0);
      TakeOther(h, 0);
      TakeErases(h, 0);
      var two := Take(one, 1);
      TakeOther(one, 1);
      TakeErases(one, 1);
      PairsErases(two, n - 1);
      var r := Pairs(two, n - 1);
      ErasedTwice(h.waiting, h.queue, one.waiting, one.queue, two.waiting, two.queue);
      ErasedTwice(h.waiting, h.queue, two.waiting, two.queue, r.waiting, r.queue);
    } else {
      ErasedNothing(h.waiting, h.queue);
    }
  }

  lemma FillNewErases(h: Hall, s: Setup)
    requires h.Shape()
    ensures Erased(h.waiting, h.queue, FillNew(h, s).waiting, FillNew(h, s).queue)
  {
    hide Pairs, Side, FillArena, Erased;
    if s.arena {
      FillArenaErases(h);
    } else if s.force {
      var one := Side(h, 0);
      SideErases(h, 0);
      SideErases(one, 1);
      ErasedTwice(h.waiting, h.queue, one.waiting, one.queue, Side(one, 1).waiting, Side(one, 1).queue);
    } else {
      PairsErases(h, Smaller(|h.waiting[0]|, |h.waiting[1]|));
    }
  }

  lemma CreateErases(l: Lobby, s: Setup)
    requires l.Shape() && ValidSetup(s)
    ensures Erased(l.waiting, l.queue, Create(l, s).waiting, Create(l, s).queue)
  {
    hide FillNew, EraseAll;
    if !Starts(l.waiting, s) || !s.canCreate {
      ErasedNothing(l.waiting, l.queue);
    } else if s.made.Some? {
      FillNewErases(Hall(s.made.value, l.waiting, l.queue), s);
    } else {
      assert Gone(l.waiting, [[], []], 0) == l.waiting[0] && Gone(l.waiting, [[], []], 1) == l.waiting[1];
    }
  }

  lemma FillNewOutcome(h: Hall, s: Setup, o: Team)
    requires h.Shape()
    ensures var r := FillNew(h, s);
            Served(h, r, o)
  {
    hide WithinCap, Pairs, Side, FillArena, Asked;
    if s.arena {
      FillOneOutcome(h, true, o);
    } else if s.force {
      PairsAreSides(h, Smaller(|h.waiting[0]|, |h.waiting[1]|));
      FillOneOutcome(h, false, o);
    } else {
      PairsOutcome(h, Smaller(|h.waiting[0]|, |h.waiting[1]|), o);
    }
  }

  // ---- The whole pass --------------------------------------------------------------------

  function Pass(instances: seq<Instance>, queue: seq<Guid>, players: Players, s: Setup): (r: Lobby)
    requires ValidSetup(s) && forall k :: 0 <= k < |instances| ==> instances[k].Shape()
    ensures r.Shape()
  {
    var sorted := Sort(Lobby(instances, [[], []], []), queue, |queue|, players, s.level, s.arena);
    Create(Existing(sorted, 0, s.level, s.arena), s)
  }

  /** Someone is asked by one of the battlegrounds. */
  ghost predicate AskedBySome(instances: seq<Instance>, p: Guid) {
    exists i :: 0 <= i < |instances| && instances[i].Shape() && Asked(instances[i], p)
  }

  /** The queue that a pass leaves: those who stay, in order, without exactly those who left a line. */
  lemma PassErases(instances: seq<Instance>, queue: seq<Guid>, players: Players, s: Setup)
    requires ValidSetup(s) && forall k :: 0 <= k < |instances| ==> instances[k].Shape()
    ensures var start := Lobby(instances, [[], []], []);
            var lines := [Line(queue, |queue|, players, s.level, s.arena, 0), Line(queue, |queue|, players, s.level, s.arena, 1)];
            var r := Pass(instances, queue, players, s);
            Erased(lines, Staying(start, queue, |queue|, players, s.level, s.arena), r.waiting, r.queue)
  {
    hide Sort, Existing, Create, Line, Staying, Erased;
    var start := Lobby(instances, [[], []], []);
    var sorted := Sort(start, queue, |queue|, players, s.level, s.arena);
    SortStaying(start, queue, |queue|, players, s.level, s.arena);
    SortLines(start, queue, |queue|, players, s.level, s.arena, 0);
    SortLines(start, queue, |queue|, players, s.level, s.arena, 1);
    assert sorted.waiting == [sorted.waiting[0], sorted.waiting[1]];
    var filled := Existing(sorted, 0, s.level, s.arena);
    ExistingErases(sorted, 0, s.level, s.arena);
    CreateErases(filled, s);
    var r := Create(filled, s);
    ErasedTwice(sorted.waiting, sorted.queue, filled.waiting, filled.queue, r.waiting, r.queue);
  }

  /** A sequence without the members of a set. */
  function Others(queue: seq<Guid>, gone: set<Guid>): seq<Guid> {
    if queue == [] then []
    else if queue[0] in gone then Others(queue[1..], gone)
    else [queue[0]] + Others(queue[1..], gone)
  }

  ghost predicate NoTwice(queue: seq<Guid>) { forall i, j :: 0 <= i < j < |queue| ==> queue[i] != queue[j] }

  lemma {:induction false} EraseIsOthers(queue: seq<Guid>, p: Guid)
    requires NoTwice(queue)
    ensures Erase(queue, p) == Others(queue, {p})
  {
    if queue != [] {
      if queue[0] == p {
        OthersAll(queue[1..], {p});
      } else {
        EraseIsOthers(queue[1..], p);
      }
    }
  }

  lemma {:induction false} OthersAll(queue: seq<Guid>, gone: set<Guid>)
    requires forall i :: 0 <= i < |queue| ==> queue[i] !in gone
    ensures Others(queue, gone) == queue
  {
    if queue != [] { OthersAll(queue[1..], gone); }
  }

  lemma {:induction false} OthersTwice(queue: seq<Guid>, a: set<Guid>, b: set<Guid>)
    ensures Others(Others(queue, a), b) == Others(queue, a + b)
  {
    if queue != [] {
      OthersTwice(queue[1..], a, b);
      if queue[0] !in a { assert Others(queue, a)[1..] == Others(queue[1..], a); }
    }
  }

  lemma {:induction false} OthersOnce(queue: seq<Guid>, gone: set<Guid>)
    requires NoTwice(queue)
    ensures NoTwice(Others(queue, gone)) && forall p :: p in Others(queue, gone) <==> p in queue && p !in gone
  {
    if queue != [] {
      OthersOnce(queue[1..], gone);
      var rest := Others(queue[1..], gone);
      assert queue == [queue[0]] + queue[1..];
      assert queue[0] !in queue[1..];
      forall j | 0 <= j < |rest| ensures rest[j] != queue[0] { assert rest[j] in rest; }
    }
  }

  /** If no player is queued twice, erasing leaves exactly the others, in their order. */
  lemma {:induction false} EraseAllIsOthers(queue: seq<Guid>, gone: seq<Guid>)
    requires NoTwice(queue)
    ensures EraseAll(queue, gone) == Others(queue, Members(gone))
    decreases |gone|
  {
    hide Erase;
    if gone == [] {
      assert Members(gone) == {};
      OthersAll(queue, {});
    } else {
      EraseIsOthers(queue, gone[0]);
      OthersOnce(queue, {gone[0]});
      EraseAllIsOthers(Erase(queue, gone[0]), gone[1..]);
      OthersTwice(queue, {gone[0]}, Members(gone[1..]));
      assert Members(gone) == {gone[0]} + Members(gone[1..]);
    }
  }

  /** Main theorem, for line `t`: a pass overfills no side exactly if no entry that asks for a
      battleground by its id does; those left in the line are the last ones of it; they wait only
      if no battleground that existed has room; unless a creation failed, whoever left the line is
      asked to enter somewhere; and the queue left is that of those who stay, in order, without
      exactly those who left a line. */
  lemma PassOutcome(instances: seq<Instance>, queue: seq<Guid>, players: Players, s: Setup, t: Team)
    requires ValidSetup(s) && AllWithin(instances)
    ensures var start := Lobby(instances, [[], []], []);
            var line := Line(queue, |queue|, players, s.level, s.arena, t);
            var r := Pass(instances, queue, players, s);
            && (AllWithin(r.instances) <==> !SortOverfills(start, queue, |queue|, players, s.level, s.arena))
            && Suffix(r.waiting[t], line)
            && |r.instances| >= |instances|
            && (forall i :: 0 <= i < |instances| && !instances[i].ended && instances[i].level == s.level && !(s.arena && instances[i].rated) ==>
                  var b := r.instances[i];
                  r.waiting[t] == [] || if s.arena then t == 1 || b.started || b.inside[0] + |b.pending[0]| + b.inside[1] + |b.pending[1]| >= 2 * b.capacity
                                        else b.inside[t] + |b.pending[t]| >= b.capacity)
            && (s.made.Some? ==> forall p :: p in line && p !in r.waiting[t] ==> AskedBySome(r.instances, p))
    ensures var start := Lobby(instances, [[], []], []);
            var lines := [Line(queue, |queue|, players, s.level, s.arena, 0), Line(queue, |queue|, players, s.level, s.arena, 1)];
            var r := Pass(instances, queue, players, s);
            Erased(lines, Staying(start, queue, |queue|, players, s.level, s.arena), r.waiting, r.queue)
  {
    assert forall k :: 0 <= k < |instances| ==> instances[k].Shape();
    var r := Pass(instances, queue, players, s);
    forall i | 0 <= i < |instances| && |r.instances| >= |instances| ensures Open(instances[i], s.level, s.arena) <==>
      !instances[i].ended && instances[i].level == s.level && !(s.arena && instances[i].rated) { }
    forall b: Instance | b.Shape() ensures Room(b, t, s.arena) <==>
      !(if s.arena then t == 1 || b.started || b.inside[0] + |b.pending[0]| + b.inside[1] + |b.pending[1]| >= 2 * b.capacity
        else b.inside[t] + |b.pending[t]| >= b.capacity) { }
    hide WithinCap, Sort, SortOverfills, Pass, Room, Line, Erased, Staying, Suffix, AllWithin, AskedBySome, Open;
    PassErases(instances, queue, players, s);
    PassLines(instances, queue, players, s, t);
  }

  /** All of it but the queue. */
  lemma PassLines(instances: seq<Instance>, queue: seq<Guid>, players: Players, s: Setup, t: Team)
    requires ValidSetup(s) && AllWithin(instances)
    ensures var start := Lobby(instances, [[], []], []);
            var line := Line(queue, |queue|, players, s.level, s.arena, t);
            var r := Pass(instances, queue, players, s);
            && (AllWithin(r.instances) <==> !SortOverfills(start, queue, |queue|, players, s.level, s.arena))
            && Suffix(r.waiting[t], line) && |r.instances| >= |instances|
            && (forall i :: 0 <= i < |instances| && Open(instances[i], s.level, s.arena) ==>
                  !(r.waiting[t] != [] && Room(r.instances[i], t, s.arena)))
            && (s.made.Some? ==> forall p :: p in line && p !in r.waiting[t] ==> AskedBySome(r.instances, p))
  {
    var start := Lobby(instances, [[], []], []);
    assert start.Shape();
    hide WithinCap, Sort, SortOverfills, Existing, Room, Asked, Create, Line, Suffix;
    var sorted := Sort(start, queue, |queue|, players, s.level, s.arena);
    SortLines(start, queue, |queue|, players, s.level, s.arena, t);
    SortWithinIff(start, queue, |queue|, players, s.level, s.arena);
    SortKeeps(start, queue, |queue|, players, s.level, s.arena);
    FilledOutcome(sorted, s, t);
  }

  lemma FilledOutcome(l: Lobby, s: Setup, t: Team)
    requires l.Shape() && ValidSetup(s)
    ensures var r := Create(Existing(l, 0, s.level, s.arena), s);
            && (AllWithin(r.instances) <==> AllWithin(l.instances))
            && Suffix(r.waiting[t], l.waiting[t]) && |r.instances| >= |l.instances|
            && (forall i :: 0 <= i < |l.instances| && Open(l.instances[i], s.level, s.arena) ==>
                  !(r.waiting[t] != [] && Room(r.instances[i], t, s.arena)))
            && (s.made.Some? ==> forall p :: p in l.waiting[t] && p !in r.waiting[t] ==> AskedBySome(r.instances, p))
  {
    hide WithinCap, Existing, Room, Asked, FillNew, Gains;
    var filled := Existing(l, 0, s.level, s.arena);
    var r := Create(filled, s);
    ExistingOutcome(l, 0, s.level, s.arena, t);
    ExistingOver(l, s);
    if r != filled && s.made.Some? { CreateOutcome(filled, s, t); }
    forall p | s.made.Some? && p in l.waiting[t] && p !in r.waiting[t] ensures AskedBySome(r.instances, p) {
      if p !in filled.waiting[t] {
        var i :| 0 <= i < |l.instances| && Open(l.instances[i], s.level, s.arena) && Asked(filled.instances[i], p);
        assert r.instances[i] == filled.instances[i];
      }
    }
  }

  lemma CreateOutcome(l: Lobby, s: Setup, t: Team)
    requires l.Shape() && ValidSetup(s) && s.made.Some? && Create(l, s) != l
    ensures var r := Create(l, s);
            && |r.instances| == |l.instances| + 1 && r.instances[..|l.instances|] == l.instances
            && WithinCap(r.instances[|l.instances|]) && Suffix(r.waiting[t], l.waiting[t])
            && (AllWithin(r.instances) <==> AllWithin(l.instances))
            && forall p :: p in l.waiting[t] && p !in r.waiting[t] ==> AskedBySome(r.instances, p)
  {
    hide Asked, FillNew;
    FillNewOutcome(Hall(s.made.value, l.waiting, l.queue), s, t);
    hide WithinCap;
    var r := Create(l, s);
    if AllWithin(r.instances) {
      forall k | 0 <= k < |l.instances| ensures WithinCap(l.instances[k]) { assert r.instances[k] == l.instances[k]; }
    }
  }

  lemma {:induction false} SortKeeps(l: Lobby, queue: seq<Guid>, n: nat, players: Players, level: nat, arena: bool)
    requires l.Shape() && n <= |queue|
    ensures forall i :: 0 <= i < |l.instances| ==>
              var r := Sort(l, queue, n, players, level, arena).instances[i];
              r == l.instances[i].(pending := r.pending)
    decreases n
  {
    if n > 0 { SortKeeps(l, queue, n - 1, players, level, arena); }
  }

  lemma ExistingOver(l: Lobby, s: Setup)
    requires l.Shape()
    ensures AllWithin(Existing(l, 0, s.level, s.arena).instances) <==> AllWithin(l.instances)
  {
    ExistingOutcome(l, 0, s.level, s.arena, 0);
    var r := Existing(l, 0, s.level, s.arena);
    hide Size;
    forall i | 0 <= i < |l.instances| ensures WithinCap(r.instances[i]) <==> WithinCap(l.instances[i]) {
      assert Gains(l.instances[i], r.instances[i]);
    }
  }
}
