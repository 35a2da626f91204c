/** The battlegrounds and their manager, whose loops pop the lines and erase from the queue. */
module QueueObjects {
  import opened Wrappers
  import opened QueueFiller
  import opened QueuePass
  import opened QueueStarts

  class Battleground {
    const id: nat
    const level: nat
    const capacity: nat
    var ended: bool
    var rated: bool
    var started: bool
    var inside: seq<nat>
    var pending: seq<set<Guid>>

    ghost function View(): Instance
      reads this
    {
      Instance(id, level, ended, rated, started, capacity, inside, pending)
    }

    constructor (id: nat, level: nat, capacity: nat)
      ensures View() == Instance(id, level, false, false, false, capacity, [0, 0], [{}, {}])
    {
      this.id, this.level, this.capacity := id, level, capacity;
      ended, rated, started := false, false, false;
      inside, pending := [0, 0], [{}, {}];
    }

    method HasFreeSlots(t: Team) returns (ok: bool)
      requires View().Shape()
      ensures ok == QueueFiller.HasFreeSlots(View(), t)
    {
      ok := inside[t] + |pending[t]| < capacity;
    }

    method IsFull() returns (ok: bool)
      requires View().Shape()
      ensures ok == QueueFiller.IsFull(View())
    {
      var a := HasFreeSlots(0);
      var b := HasFreeSlots(1);
      ok := !(a || b);
    }

    method AddPlayer(p: Guid, t: Team)
      requires View().Shape()
      modifies `pending
      ensures View() == QueueFiller.AddPlayer(old(View()), p, t)
    {
      pending := pending[t := pending[t] + {p}];
    }

    method GetFreeTeam() returns (t: Option<Team>)
      requires View().Shape()
      ensures t == QueueFiller.GetFreeTeam(View())
    {
      var c0, c1 := inside[0] + |pending[0]|, inside[1] + |pending[1]|;
      if started { return None; }
      t := if c0 + c1 >= capacity * 2 then None else Some(if c0 > c1 then 1 else 0);
    }

    method CanPlayerJoin(p: Player, arena: bool) returns (ok: bool)
      requires View().Shape()
      ensures ok == QueuePass.CanPlayerJoin(View(), p, arena)
    {
      if arena && started { return false; }
      var free := HasFreeSlots(p.bgTeam);
      ok := p.gmTag || (free && GetLevelGrouping(p.level) == level && !p.deserter);
    }
  }

  class Manager {
    var instances: seq<Battleground>
    var waiting: seq<seq<Guid>>
    var queue: seq<Guid>

    ghost predicate Valid()
      reads this, instances
    {
      && (forall i, j :: 0 <= i < j < |instances| ==> instances[i] != instances[j])
      && View().Shape()
    }

    ghost function Views(): (s: seq<Instance>)
      reads this, instances
      ensures |s| == |instances| && forall i :: 0 <= i < |s| ==> s[i] == instances[i].View()
    {
      seq(|instances|, i requires 0 <= i < |instances| reads this, instances => instances[i].View())
    }

    ghost function View(): Lobby
      reads this, instances
    {
      Lobby(Views(), waiting, queue)
    }

    ghost function HallOf(b: Battleground): Hall
      reads this, b
    {
      Hall(b.View(), waiting, queue)
    }

    /** ErasePlayerFromList. */
    method ErasePlayer(p: Guid)
      modifies `queue
      ensures queue == Erase(old(queue), p)
    {
      for i := 0 to |queue|
        invariant queue == old(queue) && Erase(queue, p) == queue[..i] + Erase(queue[i..], p)
      {
        if queue[i] == p {
          assert queue[i..][1..] == queue[i + 1..];
          queue := queue[..i] + queue[i + 1..];
          return;
        }
        assert queue[..i + 1] == queue[..i] + [queue[i]] && queue[i..][1..] == queue[i + 1..];
      }
      assert queue[..|queue|] == queue;
    }

    method AddPlayerToBgTeam(b: Battleground, t: Team)
      requires HallOf(b).Shape() && waiting[t] != []
      modifies `waiting, `queue, b`pending
      ensures HallOf(b) == Take(old(HallOf(b)), t)
    {
      hide Erase;
      var ok := b.HasFreeSlots(t);
      if ok {
        var p := waiting[t][0];
        waiting := waiting[t := waiting[t][1..]];
        b.AddPlayer(p, t);
        ErasePlayer(p);
      }
    }

    method FillPairs(b: Battleground)
      requires HallOf(b).Shape()
      modifies `waiting, `queue, b`pending
      ensures HallOf(b).Shape() && HallOf(b) == Pairs(old(HallOf(b)), Smaller(|old(waiting[0])|, |old(waiting[1])|))
    {
      hide Take, QueueFiller.HasFreeSlots;
      var size := Smaller(|waiting[0]|, |waiting[1]|);
      var counter := 0;
      var full := b.IsFull();
      while counter < size && !full
        invariant counter <= size && HallOf(b).Shape() && full == IsFull(b.View())
        invariant size - counter <= |waiting[0]| && size - counter <= |waiting[1]|
        invariant Pairs(HallOf(b), size - counter) == Pairs(old(HallOf(b)), size)
        decreases size - counter
      {
        TakeOther(HallOf(b), 0);
        AddPlayerToBgTeam(b, 0);
        TakeOther(HallOf(b), 1);
        AddPlayerToBgTeam(b, 1);
        counter := counter + 1;
        full := b.IsFull();
      }
    }

    method FillSide(b: Battleground, t: Team)
      requires HallOf(b).Shape()
      modifies `waiting, `queue, b`pending
      ensures HallOf(b).Shape() && HallOf(b) == Side(old(HallOf(b)), t)
    {
      hide Take, QueueFiller.HasFreeSlots;
      var free := b.HasFreeSlots(t);
      while |waiting[t]| > 0 && free
        invariant HallOf(b).Shape() && free == QueueFiller.HasFreeSlots(b.View(), t)
        invariant Side(HallOf(b), t) == Side(old(HallOf(b)), t)
        decreases |waiting[t]|
      {
        TakeOther(HallOf(b), t);
        AddPlayerToBgTeam(b, t);
        free := b.HasFreeSlots(t);
      }
    }

    method FillBattleground(b: Battleground)
      requires HallOf(b).Shape()
      modifies `waiting, `queue, b`pending
      ensures HallOf(b).Shape() && HallOf(b) == QueueFiller.FillBattleground(old(HallOf(b)))
    {
      hide Pairs, Side;
      FillPairs(b);
      FillSide(b, 0);
      FillSide(b, 1);
    }

    method FillArena(b: Battleground)
      requires HallOf(b).Shape()
      modifies `waiting, `queue, b`pending
      ensures HallOf(b).Shape() && HallOf(b) == QueueFiller.FillArena(old(HallOf(b)))
    {
      hide Erase, QueueFiller.AddPlayer;
      var team := b.GetFreeTeam();
      while team.Some? && |waiting[0]| > 0
        invariant HallOf(b).Shape() && team == QueueFiller.GetFreeTeam(b.View())
        invariant QueueFiller.FillArena(HallOf(b)) == QueueFiller.FillArena(old(HallOf(b)))
        decreases |waiting[0]|
      {
        var p := waiting[0][0];
        waiting := waiting[0 := waiting[0][1..]];
        b.AddPlayer(p, team.value);
        ErasePlayer(p);
        team := b.GetFreeTeam();
      }
    }

    /** The views once only battleground `k` has changed. */
    lemma OneChanged(before: seq<Instance>, k: nat)
      requires k < |before| == |instances| && forall m :: 0 <= m < |instances| && m != k ==> instances[m].View() == before[m]
      ensures Views() == before[k := instances[k].View()]
    {
    }

    method VisitInstance(k: nat, level: nat, arena: bool)
      requires Valid() && k < |instances|
      modifies `waiting, `queue, instances
      ensures Valid() && View() == Visit(old(View()), k, level, arena)
    {
      hide QueueFiller.FillArena, QueueFiller.FillBattleground, QueueFiller.HasFreeSlots;
      var b := instances[k];
      if b.ended || b.level != level { return; }
      ghost var before := Views();
      if arena {
        if b.rated { return; }
        FillArena(b);
      } else {
        FillBattleground(b);
      }
      OneChanged(before, k);
    }

    method FillExisting(level: nat, arena: bool)
      requires Valid()
      modifies `waiting, `queue, instances
      ensures Valid() && View() == Existing(old(View()), 0, level, arena)
    {
      hide Visit;
      for k := 0 to |instances|
        invariant Valid()
        invariant Existing(View(), k, level, arena) == Existing(old(View()), 0, level, arena)
      {
        VisitInstance(k, level, arena);
      }
    }

    method FindInstance(id: nat) returns (k: nat)
      requires Valid()
      ensures k == Find(Views(), id)
    {
      k := 0;
      while k < |instances| && instances[k].id != id
        invariant k <= |instances| && Find(Views(), id) == k + Find(Views()[k..], id)
        decreases |instances| - k
      {
        assert Views()[k..][1..] == Views()[k + 1..];
        k := k + 1;
      }
    }

    /** A player who asked for a battleground by its id. */
    method JoinInstance(g: Guid, p: Player, arena: bool) returns (joined: bool)
      requires Valid()
      modifies instances
      ensures Valid()
      ensures var k := Find(old(Views()), p.instanceId);
              && joined == (k < |instances| && QueuePass.CanPlayerJoin(old(Views())[k], p, arena))
              && Views() == if joined then old(Views())[k := QueueFiller.AddPlayer(old(Views())[k], g, p.team)] else old(Views())
    {
      hide QueueFiller.AddPlayer, QueuePass.CanPlayerJoin, Find;
      ghost var before := Views();
      joined := false;
      var i := FindInstance(p.instanceId);
      if i < |instances| {
        joined := instances[i].CanPlayerJoin(p, arena);
        if joined {
          instances[i].AddPlayer(g, p.team);
          OneChanged(before, i);
        }
      }
    }

    /** An entry stays, leaves or also joins a line. */
    method SortEntry(g: Guid, ghost kept: seq<Guid>, players: Players, level: nat, arena: bool) returns (erased: bool)
      requires Valid()
      modifies `waiting, instances
      ensures Valid()
      ensures Lobby(Views(), waiting, if erased then kept else kept + [g])
           == SortOne(Lobby(old(Views()), old(waiting), kept), g, players, level, arena)
    {
      hide QueueFiller.AddPlayer, QueuePass.CanPlayerJoin, Find, GetLevelGrouping;
      if g !in players { return true; }
      var p := players[g];
      if GetLevelGrouping(p.level) != level { return true; }
      if !p.slot { return false; }
      if !p.queued { return true; }
      if p.instanceId != 0 {
        erased := JoinInstance(g, p, arena);
        return;
      }
      var t: Team := if arena then 0 else p.team;
      waiting := waiting[t := waiting[t] + [g]];
      erased := false;
    }

    /** The first `n` entries are sorted: the queue holds those kept and those not looked at. */
    ghost predicate Sorting(start: Lobby, entries: seq<Guid>, n: nat, kept: seq<Guid>, players: Players, level: nat, arena: bool)
      reads this, instances
    {
      && Valid() && start.Shape() && n <= |entries| && queue == Rest(kept, entries, n)
      && Lobby(Views(), waiting, kept) == Sort(start, entries, n, players, level, arena)
    }

    /** The entry at position `k`, which is the n-th of the queue, is sorted and perhaps erased. */
    method SortPosition(
      k: nat, ghost start: Lobby, ghost entries: seq<Guid>, ghost n: nat, ghost kept: seq<Guid>, players: Players, level: nat, arena: bool)
      returns (next: nat, ghost left: seq<Guid>)
      requires Sorting(start, entries, n, kept, players, level, arena) && k == |kept| < |queue|
      modifies `waiting, `queue, instances
      ensures n < |entries| && next == |left| && Sorting(start, entries, n + 1, left, players, level, arena)
    {
      hide SortOne, Rest, Sort;
      NextEntry(kept, entries, n);
      SortNext(start, entries, n, players, level, arena);
      var erased := SortEntry(queue[k], kept, players, level, arena);
      if erased {
        queue := queue[..k] + queue[k + 1..];
        next, left := k, kept;
      } else {
        next, left := k + 1, kept + [queue[k]];
      }
    }

    method SortQueue(players: Players, level: nat, arena: bool)
      requires Valid()
      modifies `waiting, `queue, instances
      ensures Valid() && View() == Sort(old(View()).(queue := []), old(queue), |old(queue)|, players, level, arena)
    {
      hide Sorting, Sort;
      ghost var start, entries, kept, n := View().(queue := []), queue, [], 0;
      var k := 0;
      SortingStarts(players, level, arena);
      while k < |queue|
        invariant k == |kept| && Sorting(start, entries, n, kept, players, level, arena)
        decreases |entries| - n
      {
        k, kept := SortPosition(k, start, entries, n, kept, players, level, arena);
        n := n + 1;
      }
      SortingEnds(start, entries, n, kept, players, level, arena);
    }

    lemma SortingStarts(players: Players, level: nat, arena: bool)
      requires Valid()
      ensures Sorting(View().(queue := []), queue, 0, [], players, level, arena)
    {
      LastEntry([], queue, 0);
      SortNone(View().(queue := []), queue, players, level, arena);
    }

    lemma SortingEnds(start: Lobby, entries: seq<Guid>, n: nat, kept: seq<Guid>, players: Players, level: nat, arena: bool)
      requires Sorting(start, entries, n, kept, players, level, arena) && |queue| <= |kept|
      ensures Valid() && start.Shape() && View() == Sort(start, entries, |entries|, players, level, arena)
    {
      LastEntry(kept, entries, n);
    }

    lemma SortNone(l: Lobby, entries: seq<Guid>, players: Players, level: nat, arena: bool)
      requires l.Shape()
      ensures Sort(l, entries, 0, players, level, arena) == l
    {
    }

    lemma SortNext(l: Lobby, entries: seq<Guid>, n: nat, players: Players, level: nat, arena: bool)
      requires l.Shape() && n < |entries|
      ensures Sort(l, entries, n + 1, players, level, arena)
           == SortOne(Sort(l, entries, n, players, level, arena), entries[n], players, level, arena)
    {
    }

    /** The queue while it is sorted: the entries kept and those not looked at. */
    ghost function Rest(kept: seq<Guid>, entries: seq<Guid>, n: nat): seq<Guid>
      requires n <= |entries|
    {
      kept + entries[n..]
    }

    lemma NextEntry(kept: seq<Guid>, entries: seq<Guid>, n: nat)
      requires n <= |entries| && |kept| < |Rest(kept, entries, n)|
      ensures var (q, k) := (Rest(kept, entries, n), |kept|);
              && n < |entries| && q[k] == entries[n]
              && q[..k] + q[k + 1..] == Rest(kept, entries, n + 1)
              && q == Rest(kept + [entries[n]], entries, n + 1)
    {
    }

    lemma LastEntry(kept: seq<Guid>, entries: seq<Guid>, n: nat)
      requires n <= |entries|
      ensures |Rest(kept, entries, n)| <= |kept| ==> n == |entries| && Rest(kept, entries, n) == kept
      ensures kept == [] && n == 0 ==> Rest(kept, entries, n) == entries
    {
    }

    method EraseLine(t: Team)
      requires |waiting| == 2
      modifies `waiting, `queue
      ensures waiting == old(waiting)[t := []] && queue == EraseAll(old(queue), old(waiting[t]))
    {
      while |waiting[t]| > 0
        invariant |waiting| == 2 && waiting == old(waiting)[t := waiting[t]]
        invariant EraseAll(queue, waiting[t]) == EraseAll(old(queue), old(waiting[t]))
        decreases |waiting[t]|
      {
        var p := waiting[t][0];
        waiting := waiting[t := waiting[t][1..]];
        ErasePlayer(p);
      }
    }

    method FillNew(b: Battleground, s: Setup)
      requires HallOf(b).Shape()
      modifies `waiting, `queue, b`pending
      ensures HallOf(b).Shape() && HallOf(b) == QueuePass.FillNew(old(HallOf(b)), s)
    {
      hide Pairs, Side, QueueFiller.FillArena;
      if s.arena {
        FillArena(b);
      } else if s.force {
        FillSide(b, 0);
        FillSide(b, 1);
      } else {
        FillPairs(b);
      }
    }

    /** `made` is the battleground that CreateInstance returns. */
    method Create(s: Setup, made: Battleground?)
      requires Valid() && ValidSetup(s) && s.made == (if made == null then None else Some(made.View()))
      requires made !in instances
      modifies this, made
      ensures Valid() && View() == QueuePass.Create(old(View()), s)
      ensures var (x, y) := (|old(waiting)[0]|, |old(waiting)[1]|);
              var starts := s.canCreate && if s.arena then x >= s.minPlayers || (s.force && x > 0)
                                           else (x >= s.minPlayers && y >= s.minPlayers) || (s.force && x + y > 0);
              |instances| == |old(instances)| + if starts && made != null then 1 else 0
    {
      CreatesIff(View(), s);
      hide QueuePass.FillNew, EraseAll;
      var starts := Starts(waiting, s);
      if !starts || !s.canCreate { return; }
      if made == null {
        EraseLine(0);
        EraseLine(1);
      } else {
        AddInstance(made, s);
      }
    }

    /** The new battleground is filled and joins the others. */
    method AddInstance(b: Battleground, s: Setup)
      requires Valid() && b.View().Shape() && b !in instances
      modifies this, b
      ensures Valid() && instances == old(instances) + [b]
      ensures var h := QueuePass.FillNew(Hall(old(b.View()), old(waiting), old(queue)), s);
              View() == Lobby(old(Views()) + [h.b], h.waiting, h.queue)
    {
      hide QueuePass.FillNew;
      FillNew(b, s);
      ghost var before := Views();
      instances := instances + [b];
      assert Views() == before + [b.View()];
    }

    /** One type and level group of EventQueueUpdate. */
    method UpdateQueue(players: Players, s: Setup, made: Battleground?)
      requires Valid() && ValidSetup(s) && s.made == (if made == null then None else Some(made.View()))
      requires made !in instances
      modifies this, instances, made
      ensures Valid() && View() == Pass(old(Views()), old(queue), players, s)
    {
      hide Sort, Existing, QueuePass.Create;
      waiting := [[], []];
      assert Views() == old(Views());
      SortQueue(players, s.level, s.arena);
      FillExisting(s.level, s.arena);
      Create(s, made);
    }
  }
}
