/** When a pass over the queue opens a battleground and whom it seats there, and what becomes of each
    entry, told by line lengths, players and seats alone. */
module QueueStarts {
  import opened Wrappers
  import opened QueueFiller
  import opened QueuePass

  // ---- Entries ---------------------------------------------------------------------------

  /** The fate of an entry. It is dropped if the player is gone, has left the level group or queues no
      more; it joins the battleground it asks for if the side it is counted on has room, and a game
      master anyway; it waits in a line if it asks for none; and otherwise it stays where it is. */
  lemma FateIs(instances: seq<Instance>, p: Option<Player>, level: nat, arena: bool)
    requires forall k :: 0 <= k < |instances| ==> instances[k].Shape()
    ensures var f := FateOf(instances, p, level, arena);
            var here := p.Some? && level == if p.value.level < 80 then p.value.level / 10 else 8;
            && (f == Dropped <==> !here || (p.value.slot && !p.value.queued))
            && (forall t: Team :: f == Waits(t) <==> here && p.value.slot && p.value.queued && p.value.instanceId == 0
                                                     && t == if arena then 0 else p.value.team)
            && (f.Joins? ==> f.k < |instances| && here && p.value.slot && p.value.queued && p.value.instanceId == instances[f.k].id != 0)
            && (here && p.value.slot && p.value.queued && p.value.instanceId != 0 ==>
                forall k :: 0 <= k < |instances| && instances[k].id == p.value.instanceId && (forall j :: 0 <= j < k ==> instances[j].id != p.value.instanceId) ==>
                  var b := instances[k];
                  f == if (arena ==> !b.started)
                          && (p.value.gmTag || (b.inside[p.value.bgTeam] + |b.pending[p.value.bgTeam]| < b.capacity && b.level == level && !p.value.deserter))
                       then Joins(k) else Kept)
  {
    if p.Some? && p.value.instanceId != 0 { FindsFirst(instances, p.value.instanceId); }
  }

  /** When a join by id overfills a side: the player may join, as a game master or because the side it
      is counted on has room, and the side it is put on has none. */
  lemma OverfillsIff(b: Instance, g: Guid, p: Player, arena: bool)
    requires b.Shape() && b.inside[0] + |b.pending[0]| <= b.capacity && b.inside[1] + |b.pending[1]| <= b.capacity
    requires CanPlayerJoin(b, p, arena)
    ensures var r := AddPlayer(b, g, p.team);
            && r.inside == b.inside && r.capacity == b.capacity && r.pending == b.pending[p.team := b.pending[p.team] + {g}]
            && (r.inside[0] + |r.pending[0]| > r.capacity || r.inside[1] + |r.pending[1]| > r.capacity <==>
                g !in b.pending[p.team] && b.inside[p.team] + |b.pending[p.team]| == b.capacity)
            && (b.inside[p.team] + |b.pending[p.team]| == b.capacity && g !in b.pending[p.team] ==>
                p.gmTag || (p.bgTeam != p.team && b.inside[p.bgTeam] + |b.pending[p.bgTeam]| < b.capacity))
  {
    JoinOverfillsIff(b, g, p, arena);
  }

  lemma {:induction false} FindsFirst(instances: seq<Instance>, id: nat)
    ensures forall j :: 0 <= j < Find(instances, id) ==> instances[j].id != id
  {
    if instances != [] && instances[0].id != id {
      FindsFirst(instances[1..], id);
      assert forall j :: 0 < j < |instances| ==> instances[j] == instances[1..][j - 1];
    }
  }

  /** Erasing takes out the first occurrence, and nothing if there is none. */
  lemma {:induction false} ErasesFirst(queue: seq<Guid>, p: Guid, i: nat)
    requires i <= |queue| && (i < |queue| ==> queue[i] == p) && forall j :: 0 <= j < i ==> queue[j] != p
    ensures Erase(queue, p) == if i < |queue| then queue[..i] + queue[i + 1..] else queue
  {
    if i > 0 { ErasesFirst(queue[1..], p, i - 1); }
  }

  // ---- One battleground more -------------------------------------------------------------

  /** When a battleground is added to the lobby, told by the lengths of the lines. */
  lemma CreatesIff(l: Lobby, s: Setup)
    requires l.Shape() && ValidSetup(s)
    ensures var (r, x, y) := (Create(l, s), |l.waiting[0]|, |l.waiting[1]|);
            var starts := s.canCreate && if s.arena then x >= s.minPlayers || (s.force && x > 0)
                                         else (x >= s.minPlayers && y >= s.minPlayers) || (s.force && x + y > 0);
            && (!starts ==> r == l)
            && (starts && s.made.None? ==> r.instances == l.instances && r.waiting == [[], []])
            && (starts && s.made.Some? ==> |r.instances| == |l.instances| + 1 && r.instances[..|l.instances|] == l.instances)
  {
    hide FillNew, EraseAll;
  }

  /** Main theorem: a pass adds exactly one battleground if the lines that the existing ones leave
      reach the minimum, the first of an arena and both otherwise, or a start is forced and somebody
      waits, and if one may be made and is; otherwise it adds none. If it cannot be made the lines
      are emptied. */
  lemma PassCreates(instances: seq<Instance>, queue: seq<Guid>, players: Players, s: Setup)
    requires ValidSetup(s) && forall k :: 0 <= k < |instances| ==> instances[k].Shape()
    ensures var sorted := Sort(Lobby(instances, [[], []], []), queue, |queue|, players, s.level, s.arena);
            var (filled, r) := (Existing(sorted, 0, s.level, s.arena), Pass(instances, queue, players, s));
            var (x, y) := (|filled.waiting[0]|, |filled.waiting[1]|);
            var starts := s.canCreate && if s.arena then x >= s.minPlayers || (s.force && x > 0)
                                         else (x >= s.minPlayers && y >= s.minPlayers) || (s.force && x + y > 0);
            && |filled.instances| == |instances|
            && (!starts ==> r == filled)
            && (starts && s.made.None? ==> r.instances == filled.instances && r.waiting == [[], []])
            && (starts && s.made.Some? ==> |r.instances| == |instances| + 1 && r.instances[..|instances|] == filled.instances)
  {
    hide Sort, Existing, Create;
    var sorted := Sort(Lobby(instances, [[], []], []), queue, |queue|, players, s.level, s.arena);
    CreatesIff(Existing(sorted, 0, s.level, s.arena), s);
  }

  /** How a side of a battleground is seated from a line: those who were asked already and the first of
      the line are asked, at most `most` of them and only while there are seats, and that many unless
      the seats run out. */
  ghost predicate Seated(
    capacity: nat, inside: nat, before: set<Guid>, after: set<Guid>, line: seq<Guid>, left: seq<Guid>, most: nat)
  {
    && |left| <= |line| && left == line[|line| - |left|..]
    && after == before + Members(line[..|line| - |left|])
    && |line| - |left| <= most
    && (|line| - |left| == most || inside + |after| >= capacity)
    && (inside + |before| >= capacity ==> |left| == |line|)
    && (|left| < |line| ==> inside + |after| <= capacity)
  }

  /** Side `t` of a hall is seated so. */
  ghost predicate SideIs(h: Hall, r: Hall, t: Team, most: nat)
    requires h.Shape() && r.Shape()
  {
    Seated(h.b.capacity, h.b.inside[t], h.b.pending[t], r.b.pending[t], h.waiting[t], r.waiting[t], most)
    && r.b == h.b.(pending := r.b.pending)
  }

  lemma SeatedNone(capacity: nat, inside: nat, before: set<Guid>, line: seq<Guid>, most: nat)
    requires most == 0 || inside + |before| >= capacity
    ensures Seated(capacity, inside, before, before, line, line, most)
  {
    assert Members(line[..0]) == {};
  }

  lemma SeatedTwice(
    capacity: nat, inside: nat, a: set<Guid>, b: set<Guid>, c: set<Guid>, line: seq<Guid>, left: seq<Guid>, last: seq<Guid>, n: nat)
    requires Seated(capacity, inside, a, b, line, left, 1) && Seated(capacity, inside, b, c, left, last, n)
    ensures Seated(capacity, inside, a, c, line, last, n + 1)
  {
    var k, m := |line| - |left|, |line| - |last|;
    MembersJoin(line[..m], line[..k], left[..m - k]);
    NoMembers(line);
    hide Members;
    if k == 0 { assert line[..k] == line[..0]; }
  }

  lemma MembersJoin(s: seq<Guid>, a: seq<Guid>, b: seq<Guid>)
    requires s == a + b
    ensures Members(s) == Members(a) + Members(b)
  {
  }

  lemma SideSeated(h: Hall, t: Team)
    requires h.Shape()
    ensures SideIs(h, Side(h, t), t, |h.waiting[t]|)
    ensures Side(h, t).b.pending[1 - t] == h.b.pending[1 - t] && Side(h, t).waiting[1 - t] == h.waiting[1 - t]
  {
    SideFills(h, t);
    SideSeats(h, t);
    SideKeeps(h, t);
    if h.b.inside[t] + |h.b.pending[t]| >= h.b.capacity { assert Side(h, t) == h; }
    hide Side, EraseAll, Members;
  }

  lemma TakeSeated(h: Hall, t: Team)
    requires h.Shape() && h.waiting[t] != []
    ensures SideIs(h, Take(h, t), t, 1)
    ensures Take(h, t).b.pending[1 - t] == h.b.pending[1 - t] && Take(h, t).waiting[1 - t] == h.waiting[1 - t]
  {
    if HasFreeSlots(h.b, t) {
      TakeFills(h, t);
      TakeOther(h, t);
      assert h.waiting[t][..1] == [h.waiting[t][0]];
      hide Take;
    } else {
      SeatedNone(h.b.capacity, h.b.inside[t], h.b.pending[t], h.waiting[t], 1);
    }
  }

  lemma PairSeated(h: Hall, t: Team)
    requires h.Shape() && h.waiting[0] != [] && h.waiting[1] != []
    ensures Take(h, 0).waiting[1] == h.waiting[1] && SideIs(h, Take(Take(h, 0), 1), t, 1)
  {
    hide Take, Seated;
    var one := Take(h, 0);
    TakeSeated(h, 0);
    var two := Take(one, 1);
    TakeSeated(one, 1);
    if t == 0 { SameSide(h, one, h, two, t, 1); } else { SameSide(one, two, h, two, t, 1); }
  }

  /** Only what concerns the side matters. */
  lemma SameSide(h: Hall, r: Hall, g: Hall, q: Hall, t: Team, most: nat)
    requires h.Shape() && r.Shape() && g.Shape() && q.Shape() && SideIs(h, r, t, most)
    requires h.b == g.b.(pending := h.b.pending) && q.b == g.b.(pending := q.b.pending)
    requires h.b.pending[t] == g.b.pending[t] && h.waiting[t] == g.waiting[t]
    requires r.b.pending[t] == q.b.pending[t] && r.waiting[t] == q.waiting[t]
    ensures SideIs(g, q, t, most)
  {
    hide Seated;
  }

  lemma NobodySeated(h: Hall, n: nat, t: Team)
    requires h.Shape() && (n == 0 || IsFull(h.b))
    ensures SideIs(h, h, t, n)
  {
    SeatedNone(h.b.capacity, h.b.inside[t], h.b.pending[t], h.waiting[t], n);
  }

  lemma {:induction false} PairsSeated(h: Hall, n: nat, t: Team)
    requires h.Shape() && n <= |h.waiting[0]| && n <= |h.waiting[1]|
    ensures SideIs(h, Pairs(h, n), t, n)
    decreases n
  {
    hide Take, IsFull, HasFreeSlots, SideIs;
    if n > 0 && !IsFull(h.b) {
      PairSeated(h, t);
      TakeOther(h, 0);
      TakeOther(Take(h, 0), 1);
      var two := Take(Take(h, 0), 1);
      PairsSeated(two, n - 1, t);
      SideTwice(h, two, Pairs(two, n - 1), t, n - 1);
    } else {
      NobodySeated(h, n, t);
    }
  }

  lemma SideTwice(h: Hall, m: Hall, r: Hall, t: Team, n: nat)
    requires h.Shape() && m.Shape() && r.Shape() && SideIs(h, m, t, 1) && SideIs(m, r, t, n)
    ensures SideIs(h, r, t, n + 1)
  {
    hide Seated;
    SeatedTwice(h.b.capacity, h.b.inside[t], h.b.pending[t], m.b.pending[t], r.b.pending[t], h.waiting[t], m.waiting[t], r.waiting[t], n);
  }

  /** Whom the new battleground takes. Forced, each side takes from its line as long as it has seats;
      otherwise each takes as many as the shorter line has, as far as its own seats go. An arena takes
      from the first line until that is empty or it is full, and nobody if it has started. */
  lemma NewSeats(h: Hall, s: Setup, t: Team)
    requires h.Shape()
    ensures var (r, x, y) := (FillNew(h, s), |h.waiting[0]|, |h.waiting[1]|);
            && (!s.arena ==> SideIs(h, r, t, if s.force then |h.waiting[t]| else if x < y then x else y))
            && (s.arena ==>
                && |r.waiting[0]| <= x && r.waiting[0] == h.waiting[0][x - |r.waiting[0]|..] && r.waiting[1] == h.waiting[1]
                && r.b == h.b.(pending := r.b.pending)
                && r.b.pending[0] + r.b.pending[1]
                   == h.b.pending[0] + h.b.pending[1] + Members(h.waiting[0][..x - |r.waiting[0]|])
                && (r.waiting[0] == [] || r.b.started
                    || r.b.inside[0] + |r.b.pending[0]| + r.b.inside[1] + |r.b.pending[1]| >= 2 * r.b.capacity)
                && (r.b.started ==> r.waiting[0] == h.waiting[0]))
  {
    hide Seated, Members;
    if s.arena {
      FillArenaFills(h);
      FillArenaSeats(h);
      StartedTakesNone(h);
      hide FillArena, EraseAll;
    } else if s.force {
      hide Side;
      SideSeated(h, 0);
      SideSeated(Side(h, 0), 1);
    } else {
      hide Pairs;
      PairsSeated(h, Smaller(|h.waiting[0]|, |h.waiting[1]|), t);
    }
  }

  lemma StartedTakesNone(h: Hall)
    requires h.Shape()
    ensures h.b.started ==> FillArena(h) == h
  {
  }

  /** The battleground that a pass opens, seated from the lines that the existing ones leave. */
  lemma PassSeats(instances: seq<Instance>, queue: seq<Guid>, players: Players, s: Setup, t: Team)
    requires ValidSetup(s) && forall k :: 0 <= k < |instances| ==> instances[k].Shape()
    ensures var sorted := Sort(Lobby(instances, [[], []], []), queue, |queue|, players, s.level, s.arena);
            var (filled, r) := (Existing(sorted, 0, s.level, s.arena), Pass(instances, queue, players, s));
            && |filled.instances| == |instances| && |r.instances| <= |instances| + 1
            && (|r.instances| == |instances| + 1 ==>
                && s.made.Some?
                && var (made, b, x, y) := (s.made.value, r.instances[|instances|], |filled.waiting[0]|, |filled.waiting[1]|);
                && b == made.(pending := b.pending)
                && (!s.arena ==> Seated(made.capacity, made.inside[t], made.pending[t], b.pending[t], filled.waiting[t], r.waiting[t],
                                        if s.force then |filled.waiting[t]| else if x < y then x else y))
                && (s.arena ==>
                    && |r.waiting[0]| <= x && r.waiting[0] == filled.waiting[0][x - |r.waiting[0]|..]
                    && b.pending[0] + b.pending[1]
                       == made.pending[0] + made.pending[1] + Members(filled.waiting[0][..x - |r.waiting[0]|])
                    && (r.waiting[0] == [] || b.started
                        || b.inside[0] + |b.pending[0]| + b.inside[1] + |b.pending[1]| >= 2 * b.capacity)))
  {
    hide Sort, Existing, FillNew, EraseAll, Seated, Members;
    var sorted := Sort(Lobby(instances, [[], []], []), queue, |queue|, players, s.level, s.arena);
    var filled := Existing(sorted, 0, s.level, s.arena);
    if s.made.Some? { NewSeats(Hall(s.made.value, filled.waiting, filled.queue), s, t); }
  }

  // ---- How many --------------------------------------------------------------------------

  lemma {:induction false} AsManyMembers(line: seq<Guid>)
    requires forall i, j :: 0 <= i < j < |line| ==> line[i] != line[j]
    ensures |Members(line)| == |line|
  {
    if line == [] {
      assert Members(line) == {};
    } else {
      AsManyMembers(line[1..]);
      MembersJoin(line, [line[0]], line[1..]);
      assert Members([line[0]]) == {line[0]};
      assert line[0] !in Members(line[1..]);
      hide Members;
    }
  }

  /** A side that starts empty and is seated from a line in which nobody stands twice holds as many as
      it may take and has seats for. */
  lemma SeatedCount(capacity: nat, after: set<Guid>, line: seq<Guid>, left: seq<Guid>, most: nat)
    requires Seated(capacity, 0, {}, after, line, left, most)
    requires forall i, j :: 0 <= i < j < |line| ==> line[i] != line[j]
    ensures |after| == |line| - |left| == if most < capacity then most else capacity
  {
    AsManyMembers(line[..|line| - |left|]);
    assert after == Members(line[..|line| - |left|]);
    hide Members;
    if capacity == 0 { assert |left| == |line|; }
  }
}
