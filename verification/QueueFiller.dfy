/** Filling battlegrounds and arenas from the queue of one battleground type and level group. */
module QueueFiller {
  import opened Wrappers

  type Guid = nat

  /** 0 is the Alliance, 1 the Horde. */
  type Team = t: nat | t < 2

  /** A battleground: for each side the players inside and those asked to enter. */
  datatype Instance = Instance(
    id: nat, level: nat, ended: bool, rated: bool, started: bool, capacity: nat, inside: seq<nat>, pending: seq<set<Guid>>)
  {
    predicate Shape() { |inside| == 2 && |pending| == 2 }
  }

  function Size(b: Instance, t: Team): nat
    requires b.Shape()
  {
    b.inside[t] + |b.pending[t]|
  }

  predicate HasFreeSlots(b: Instance, t: Team)
    requires b.Shape()
  {
    Size(b, t) < b.capacity
  }

  predicate IsFull(b: Instance)
    requires b.Shape()
  {
    !(HasFreeSlots(b, 0) || HasFreeSlots(b, 1))
  }

  predicate WithinCap(b: Instance) { b.Shape() && Size(b, 0) <= b.capacity && Size(b, 1) <= b.capacity }

  /** CBattleground::AddPlayer: a player who is asked already takes no second place. */
  function AddPlayer(b: Instance, p: Guid, t: Team): (r: Instance)
    requires b.Shape()
    ensures r.Shape() && Size(r, t) == Size(b, t) + (if p in b.pending[t] then 0 else 1)
  {
    assert p in b.pending[t] ==> b.pending[t] + {p} == b.pending[t];
    b.(pending := b.pending[t := b.pending[t] + {p}])
  }

  /** ErasePlayerFromList: the first occurrence. */
  function Erase(queue: seq<Guid>, p: Guid): seq<Guid> {
    if queue == [] then [] else if queue[0] == p then queue[1..] else [queue[0]] + Erase(queue[1..], p)
  }

  lemma {:induction false} EraseCommutes(queue: seq<Guid>, p: Guid, q: Guid)
    ensures Erase(Erase(queue, p), q) == Erase(Erase(queue, q), p)
  {
    if queue != [] && queue[0] != p && queue[0] != q { EraseCommutes(queue[1..], p, q); }
  }

  // ---- One battleground ------------------------------------------------------------------

  /** A battleground, those waiting on each side, and the queue they came from. */
  datatype Hall = Hall(b: Instance, waiting: seq<seq<Guid>>, queue: seq<Guid>) {
    predicate Shape() { b.Shape() && |waiting| == 2 }
  }

  /** AddPlayerToBgTeam. */
  function Take(h: Hall, t: Team): (r: Hall)
    requires h.Shape() && h.waiting[t] != []
    ensures r.Shape()
  {
    var p := h.waiting[t][0];
    if HasFreeSlots(h.b, t) then
      Hall(AddPlayer(h.b, p, t), h.waiting[t := h.waiting[t][1..]], Erase(h.queue, p))
    else h
  }

  /** The loop that seats one of each side in turn. */
  function Pairs(h: Hall, n: nat): (r: Hall)
    requires h.Shape() && n <= |h.waiting[0]| && n <= |h.waiting[1]|
    ensures r.Shape()
    decreases n
  {
    if n == 0 || IsFull(h.b) then h
    else Pairs(Take(Take(h, 0), 1), n - 1)
  }

  /** The loop that seats one side for as long as there is room. */
  function Side(h: Hall, t: Team): (r: Hall)
    requires h.Shape()
    ensures r.Shape() && r.waiting == h.waiting[t := r.waiting[t]]
    ensures |r.waiting[t]| <= |h.waiting[t]|
    decreases |h.waiting[t]|
  {
    if h.waiting[t] == [] || !HasFreeSlots(h.b, t) then h else Side(Take(h, t), t)
  }

  function Smaller(a: nat, b: nat): nat { if a < b then a else b }

  function FillBattleground(h: Hall): (r: Hall)
    requires h.Shape()
    ensures r.Shape()
  {
    Side(Side(Pairs(h, Smaller(|h.waiting[0]|, |h.waiting[1]|)), 0), 1)
  }

  lemma SideAfterTake(h: Hall, t: Team)
    requires h.Shape() && h.waiting[t] != []
    ensures Side(Take(h, t), t) == Side(h, t)
  {
  }

  lemma TakesCommute(h: Hall)
    requires h.Shape() && h.waiting[0] != [] && h.waiting[1] != []
    ensures Take(Take(h, 0), 1) == Take(Take(h, 1), 0)
  {
    var p, q := h.waiting[0][0], h.waiting[1][0];
    EraseCommutes(h.queue, p, q);
    TakeOther(h, 0);
    TakeOther(h, 1);
    SeatsCommute(h.b, p, q);
    hide Erase, HasFreeSlots, AddPlayer;
  }

  lemma SeatsCommute(b: Instance, p: Guid, q: Guid)
    requires b.Shape()
    ensures AddPlayer(AddPlayer(b, p, 0), q, 1) == AddPlayer(AddPlayer(b, q, 1), p, 0)
  {
  }

  lemma TakeOther(h: Hall, t: Team)
    requires h.Shape() && h.waiting[t] != []
    ensures HasFreeSlots(Take(h, t).b, 1 - t) == HasFreeSlots(h.b, 1 - t) && Take(h, t).waiting[1 - t] == h.waiting[1 - t]
    ensures |Take(h, t).waiting[t]| == |h.waiting[t]| || |Take(h, t).waiting[t]| + 1 == |h.waiting[t]|
    ensures HasFreeSlots(h.b, t) ==> |Take(h, t).waiting[t]| < |h.waiting[t]|
  {
  }

  lemma {:induction false} SideCommutes(h: Hall)
    requires h.Shape() && h.waiting[1] != []
    ensures Side(Take(h, 1), 0) == Take(Side(h, 0), 1)
    decreases |h.waiting[0]|
  {
    if h.waiting[0] != [] && HasFreeSlots(h.b, 0) {
      TakesCommute(h);
      TakeOther(h, 0);
      TakeOther(h, 1);
      hide Take, HasFreeSlots;
      SideCommutes(Take(h, 0));
    }
  }

  lemma SideKeeps(h: Hall, t: Team)
    requires h.Shape()
    ensures Side(h, t).waiting[1 - t] == h.waiting[1 - t]
  {
  }

  /** Seating in pairs first and each side afterwards comes to seating each side. */
  lemma {:induction false} PairsAreSides(h: Hall, n: nat)
    requires h.Shape() && n <= |h.waiting[0]| && n <= |h.waiting[1]|
    ensures Side(Side(Pairs(h, n), 0), 1) == Side(Side(h, 0), 1)
    decreases n
  {
    hide Take, Side, HasFreeSlots, IsFull;
    if n > 0 && !IsFull(h.b) {
      var one := Take(h, 0);
      TakeOther(h, 0);
      TakeOther(one, 1);
      SideKeeps(one, 0);
      PairsAreSides(Take(one, 1), n - 1);
      SideCommutes(one);
      SideAfterTake(h, 0);
      SideAfterTake(Side(one, 0), 1);
    }
  }

  ghost predicate Suffix(s: seq<Guid>, of: seq<Guid>) { |s| <= |of| && s == of[|of| - |s|..] }

  /** The set of a sequence. */
  function Members(s: seq<Guid>): set<Guid> { set p | p in s }

  lemma {:induction false} SideFills(h: Hall, t: Team)
    requires h.Shape()
    ensures var r := Side(h, t);
            && (r.waiting[t] == [] || !HasFreeSlots(r.b, t))
            && r.b == h.b.(pending := h.b.pending[t := r.b.pending[t]])
            && (Size(h.b, t) <= h.b.capacity ==> Size(r.b, t) <= h.b.capacity)
            && Size(h.b, t) <= Size(r.b, t)
    decreases |h.waiting[t]|
  {
    hide Erase;
    if h.waiting[t] != [] && HasFreeSlots(h.b, t) {
      TakeFills(h, t);
      hide Take, HasFreeSlots;
      SideFills(Take(h, t), t);
    } else {
      assert h.b.pending[t := h.b.pending[t]] == h.b.pending;
    }
  }

  lemma TakeFills(h: Hall, t: Team)
    requires h.Shape() && h.waiting[t] != [] && HasFreeSlots(h.b, t)
    ensures var r := Take(h, t);
            && |r.waiting[t]| < |h.waiting[t]| && r.waiting[t] == h.waiting[t][1..]
            && r.b == h.b.(pending := h.b.pending[t := r.b.pending[t]])
            && r.b.pending[t] == h.b.pending[t] + {h.waiting[t][0]}
            && Size(h.b, t) <= Size(r.b, t) <= h.b.capacity
            && r.queue == Erase(h.queue, h.waiting[t][0])
  {
    hide Erase;
  }

  function EraseAll(queue: seq<Guid>, gone: seq<Guid>): seq<Guid>
    decreases |gone|
  {
    if gone == [] then queue else EraseAll(Erase(queue, gone[0]), gone[1..])
  }

  /** The first ones of the waiting order are asked and leave the queue, the others still wait. */
  lemma {:induction false} SideSeats(h: Hall, t: Team)
    requires h.Shape()
    ensures var (r, k) := (Side(h, t), |h.waiting[t]| - |Side(h, t).waiting[t]|);
            && h.waiting[t] == h.waiting[t][..k] + r.waiting[t]
            && r.b.pending[t] == h.b.pending[t] + Members(h.waiting[t][..k])
            && r.queue == EraseAll(h.queue, h.waiting[t][..k])
    decreases |h.waiting[t]|
  {
    hide Erase;
    if h.waiting[t] != [] && HasFreeSlots(h.b, t) {
      TakeFills(h, t);
      hide Take;
      var n := Take(h, t);
      SideSeats(n, t);
      var k := |h.waiting[t]| - |Side(h, t).waiting[t]|;
      MembersCons(h.waiting[t], k);
    }
  }

  lemma MembersCons(s: seq<Guid>, k: nat)
    requires 0 < k <= |s|
    ensures s[..k] == [s[0]] + s[1..][..k - 1] && s[..k][0] == s[0] && s[..k][1..] == s[1..][..k - 1]
    ensures Members(s[..k]) == {s[0]} + Members(s[1..][..k - 1])
  {
  }

  // ---- What is erased from the queue -----------------------------------------------------

  /** Those of line `t` who left it. */
  function Gone(before: seq<seq<Guid>>, after: seq<seq<Guid>>, t: Team): seq<Guid>
    requires |before| == |after| == 2 && |after[t]| <= |before[t]|
  {
    before[t][..|before[t]| - |after[t]|]
  }

  /** The lines lost their first ones, and these, no others, were erased from the queue. */
  ghost predicate Erased(before: seq<seq<Guid>>, queue: seq<Guid>, after: seq<seq<Guid>>, left: seq<Guid>) {
    && |before| == |after| == 2 && Suffix(after[0], before[0]) && Suffix(after[1], before[1])
    && left == EraseAll(EraseAll(queue, Gone(before, after, 0)), Gone(before, after, 1))
  }

  lemma {:induction false} EraseAllConcat(queue: seq<Guid>, x: seq<Guid>, y: seq<Guid>)
    ensures EraseAll(queue, x + y) == EraseAll(EraseAll(queue, x), y)
    decreases |x|
  {
    if x == [] {
      assert x + y == y;
    } else {
      assert (x + y)[0] == x[0] && (x + y)[1..] == x[1..] + y;
      EraseAllConcat(Erase(queue, x[0]), x[1..], y);
    }
  }

  lemma {:induction false} EraseAllOne(queue: seq<Guid>, p: Guid, y: seq<Guid>)
    ensures EraseAll(Erase(queue, p), y) == Erase(EraseAll(queue, y), p)
    decreases |y|
  {
    hide Erase;
    if y != [] {
      EraseCommutes(queue, p, y[0]);
      EraseAllOne(Erase(queue, y[0]), p, y[1..]);
    }
  }

  lemma {:induction false} EraseAllCommutes(queue: seq<Guid>, x: seq<Guid>, y: seq<Guid>)
    ensures EraseAll(EraseAll(queue, x), y) == EraseAll(EraseAll(queue, y), x)
    decreases |x|
  {
    hide Erase;
    if x != [] {
      EraseAllCommutes(Erase(queue, x[0]), x[1..], y);
      EraseAllOne(queue, x[0], y);
    }
  }

  lemma GoneTwice(a: seq<seq<Guid>>, b: seq<seq<Guid>>, c: seq<seq<Guid>>, t: Team)
    requires |a| == |b| == |c| == 2 && Suffix(b[t], a[t]) && Suffix(c[t], b[t])
    ensures Suffix(c[t], a[t]) && Gone(a, c, t) == Gone(a, b, t) + Gone(b, c, t)
  {
  }

  lemma ErasedTwice(a: seq<seq<Guid>>, qa: seq<Guid>, b: seq<seq<Guid>>, qb: seq<Guid>, c: seq<seq<Guid>>, qc: seq<Guid>)
    requires Erased(a, qa, b, qb) && Erased(b, qb, c, qc)
    ensures Erased(a, qa, c, qc)
  {
    GoneTwice(a, b, c, 0);
    GoneTwice(a, b, c, 1);
    var (x0, x1, y0, y1) := (Gone(a, b, 0), Gone(a, b, 1), Gone(b, c, 0), Gone(b, c, 1));
    EraseAllConcat(qa, x0, y0);
    EraseAllConcat(EraseAll(qa, x0 + y0), x1, y1);
    EraseAllCommutes(EraseAll(qa, x0), x1, y0);
    hide Suffix, Gone, EraseAll;
  }

  lemma ErasedNothing(waiting: seq<seq<Guid>>, queue: seq<Guid>)
    requires |waiting| == 2
    ensures Erased(waiting, queue, waiting, queue)
  {
  }

  /** One line has lost its first ones. */
  lemma ErasedOne(before: seq<seq<Guid>>, queue: seq<Guid>, after: seq<seq<Guid>>, left: seq<Guid>, t: Team)
    requires |before| == |after| == 2 && after == before[t := after[t]] && |after[t]| <= |before[t]|
    requires before[t] == Gone(before, after, t) + after[t] && left == EraseAll(queue, Gone(before, after, t))
    ensures Erased(before, queue, after, left)
  {
    assert Gone(before, after, 1 - t) == [];
    assert after[1 - t] == before[1 - t];
  }

  lemma SideErases(h: Hall, t: Team)
    requires h.Shape()
    ensures Erased(h.waiting, h.queue, Side(h, t).waiting, Side(h, t).queue)
  {
    hide Side, EraseAll, Erased;
    SideSeats(h, t);
    SideLines(h, t);
    ErasedOne(h.waiting, h.queue, Side(h, t).waiting, Side(h, t).queue, t);
  }

  lemma SideLines(h: Hall, t: Team)
    requires h.Shape()
    ensures Side(h, t).waiting == h.waiting[t := Side(h, t).waiting[t]] && |Side(h, t).waiting[t]| <= |h.waiting[t]|
  {
  }

  // ---- One arena -------------------------------------------------------------------------

  /** GetFreeTeam: the side with fewer players, unless the arena has started or is full. */
  function GetFreeTeam(b: Instance): (t: Option<Team>)
    requires b.Shape()
    ensures t.Some? <==> !b.started && Size(b, 0) + Size(b, 1) < b.capacity * 2
    ensures t.Some? ==> HasFreeSlots(b, t.value) && Size(b, t.value) <= Size(b, 1 - t.value)
  {
    if b.started || Size(b, 0) + Size(b, 1) >= b.capacity * 2 then None
    else Some(if Size(b, 0) > Size(b, 1) then 1 else 0)
  }

  /** Arena players all wait in the first line. */
  function FillArena(h: Hall): (r: Hall)
    requires h.Shape()
    ensures r.Shape() && r.waiting[1] == h.waiting[1]
    decreases |h.waiting[0]|
  {
    var team := GetFreeTeam(h.b);
    if team.None? || h.waiting[0] == [] then h
    else
      var p := h.waiting[0][0];
      FillArena(Hall(AddPlayer(h.b, p, team.value), h.waiting[0 := h.waiting[0][1..]], Erase(h.queue, p)))
  }

  function AllAsked(b: Instance): set<Guid>
    requires b.Shape()
  {
    b.pending[0] + b.pending[1]
  }

  lemma {:induction false} FillArenaFills(h: Hall)
    requires h.Shape()
    ensures var r := FillArena(h);
            && (r.waiting[0] == [] || GetFreeTeam(r.b).None?)
            && r.b == h.b.(pending := r.b.pending)
            && (WithinCap(h.b) ==> WithinCap(r.b)) && Size(h.b, 0) <= Size(r.b, 0) && Size(h.b, 1) <= Size(r.b, 1)
    decreases |h.waiting[0]|
  {
    hide Erase;
    var team := GetFreeTeam(h.b);
    if team.Some? && h.waiting[0] != [] {
      var p := h.waiting[0][0];
      SeatInArena(h.b, p);
      hide AddPlayer, GetFreeTeam, HasFreeSlots, WithinCap;
      FillArenaFills(Hall(AddPlayer(h.b, p, team.value), h.waiting[0 := h.waiting[0][1..]], Erase(h.queue, p)));
    }
  }

  /** As for a battleground; whoever no longer waits is asked on one of the sides. */
  lemma {:induction false} FillArenaSeats(h: Hall)
    requires h.Shape()
    ensures var (r, k) := (FillArena(h), |h.waiting[0]| - |FillArena(h).waiting[0]|);
            && k >= 0 && h.waiting[0] == h.waiting[0][..k] + r.waiting[0]
            && AllAsked(r.b) == AllAsked(h.b) + Members(h.waiting[0][..k])
            && r.queue == EraseAll(h.queue, h.waiting[0][..k])
    decreases |h.waiting[0]|
  {
    hide Erase, Members;
    var team := GetFreeTeam(h.b);
    if team.Some? && h.waiting[0] != [] {
      var p := h.waiting[0][0];
      SeatInArena(h.b, p);
      hide AddPlayer, GetFreeTeam, HasFreeSlots, WithinCap, AllAsked;
      FillArenaSeats(Hall(AddPlayer(h.b, p, team.value), h.waiting[0 := h.waiting[0][1..]], Erase(h.queue, p)));
      MembersCons(h.waiting[0], |h.waiting[0]| - |FillArena(h).waiting[0]|);
    } else {
      NoMembers(h.waiting[0]);
    }
  }

  lemma NoMembers(s: seq<Guid>)
    ensures s[..0] == [] && Members(s[..0]) == {}
  {
  }

  lemma SeatInArena(b: Instance, p: Guid)
    requires b.Shape() && GetFreeTeam(b).Some?
    ensures var r := AddPlayer(b, p, GetFreeTeam(b).value);
            && r == b.(pending := r.pending) && (WithinCap(b) ==> WithinCap(r))
            && Size(b, 0) <= Size(r, 0) && Size(b, 1) <= Size(r, 1)
            && AllAsked(r) == AllAsked(b) + {p}
  {
    var t := GetFreeTeam(b).value;
    assert AddPlayer(b, p, t).pending[1 - t] == b.pending[1 - t];
  }

  lemma FillArenaLines(h: Hall)
    requires h.Shape()
    ensures FillArena(h).waiting == h.waiting[0 := FillArena(h).waiting[0]]
  {
    hide FillArena;
  }

  lemma FillArenaErases(h: Hall)
    requires h.Shape()
    ensures Erased(h.waiting, h.queue, FillArena(h).waiting, FillArena(h).queue)
  {
    hide FillArena, EraseAll, Erased, Members, AllAsked;
    var r := FillArena(h);
    FillArenaLines(h);
    FillArenaSeats(h);
    ErasedOne(h.waiting, h.queue, r.waiting, r.queue, 0);
  }

  // ---- All battlegrounds of the type -----------------------------------------------------

  datatype Lobby = Lobby(instances: seq<Instance>, waiting: seq<seq<Guid>>, queue: seq<Guid>) {
    ghost predicate Shape() { |waiting| == 2 && forall k :: 0 <= k < |instances| ==> instances[k].Shape() }
  }

  /** A battleground that the pass tries to fill. */
  predicate Open(b: Instance, level: nat, arena: bool) { !b.ended && b.level == level && !(arena && b.rated) }

  function FillOne(h: Hall, arena: bool): (r: Hall)
    requires h.Shape()
    ensures r.Shape()
  {
    if arena then FillArena(h) else FillBattleground(h)
  }

  function Visit(l: Lobby, k: nat, level: nat, arena: bool): (r: Lobby)
    requires l.Shape() && k < |l.instances|
    ensures r.Shape() && |r.instances| == |l.instances|
  {
    if !Open(l.instances[k], level, arena) then l
    else
      var h := FillOne(Hall(l.instances[k], l.waiting, l.queue), arena);
      Lobby(l.instances[k := h.b], h.waiting, h.queue)
  }

  function Existing(l: Lobby, k: nat, level: nat, arena: bool): (r: Lobby)
    requires l.Shape() && k <= |l.instances|
    ensures r.Shape() && |r.instances| == |l.instances|
    decreases |l.instances| - k
  {
    if k == |l.instances| then l else Existing(Visit(l, k, level, arena), k + 1, level, arena)
  }

  /** Whether a player waiting in line `t` finds room. */
  predicate Room(b: Instance, t: Team, arena: bool)
    requires b.Shape()
  {
    if arena then t == 0 && GetFreeTeam(b).Some? else HasFreeSlots(b, t)
  }

  /** One battleground before and after: it only gains asked players, and not too many. */
  ghost predicate Gains(b: Instance, r: Instance) {
    && b.Shape() && r.Shape() && r == b.(pending := r.pending) && (WithinCap(b) ==> WithinCap(r))
    && AllAsked(b) <= AllAsked(r) && Size(b, 0) <= Size(r, 0) && Size(b, 1) <= Size(r, 1)
  }

  ghost predicate Asked(b: Instance, p: Guid)
    requires b.Shape()
  {
    p in AllAsked(b)
  }

  lemma GoneIsMember(s: seq<Guid>, k: nat, rest: seq<Guid>)
    requires k <= |s| && s == s[..k] + rest
    ensures forall p :: p in s && p !in rest ==> p in Members(s[..k])
  {
    forall p | p in s && p !in rest ensures p in s[..k] {
      var i :| 0 <= i < |s| && s[i] == p;
      assert i < k || rest[i - k] == p;
    }
  }

  lemma FillOneErases(h: Hall, arena: bool)
    requires h.Shape()
    ensures Erased(h.waiting, h.queue, FillOne(h, arena).waiting, FillOne(h, arena).queue)
  {
    hide Side, Pairs, FillArena, Erased;
    if arena {
      FillArenaErases(h);
    } else {
      PairsAreSides(h, Smaller(|h.waiting[0]|, |h.waiting[1]|));
      var one := Side(h, 0);
      SideErases(h, 0);
      SideErases(one, 1);
      ErasedTwice(h.waiting, h.queue, one.waiting, one.queue, Side(one, 1).waiting, Side(one, 1).queue);
    }
  }

  lemma FillOneOutcome(h: Hall, arena: bool, t: Team)
    requires h.Shape()
    ensures var r := FillOne(h, arena);
            && Gains(h.b, r.b) && Suffix(r.waiting[t], h.waiting[t])
            && !(r.waiting[t] != [] && Room(r.b, t, arena))
            && forall p :: p in h.waiting[t] && p !in r.waiting[t] ==> Asked(r.b, p)
  {
    if arena {
      ArenaOutcome(h, t);
    } else {
      hide Side, Pairs, Gains, Suffix, Asked, HasFreeSlots;
      PairsAreSides(h, Smaller(|h.waiting[0]|, |h.waiting[1]|));
      SidesOutcome(h, t);
    }
  }

  lemma ArenaOutcome(h: Hall, t: Team)
    requires h.Shape()
    ensures var r := FillArena(h);
            && Gains(h.b, r.b) && Suffix(r.waiting[t], h.waiting[t])
            && !(r.waiting[t] != [] && Room(r.b, t, true))
            && forall p :: p in h.waiting[t] && p !in r.waiting[t] ==> Asked(r.b, p)
  {
    hide EraseAll, FillArena;
    FillArenaFills(h);
    FillArenaSeats(h);
    var r := FillArena(h);
    GoneIsMember(h.waiting[0], |h.waiting[0]| - |r.waiting[0]|, r.waiting[0]);
    assert Members(h.waiting[0][..|h.waiting[0]| - |r.waiting[0]|]) <= AllAsked(r.b);
  }

  lemma SidesOutcome(h: Hall, t: Team)
    requires h.Shape()
    ensures var r := Side(Side(h, 0), 1);
            && Gains(h.b, r.b) && Suffix(r.waiting[t], h.waiting[t])
            && !(r.waiting[t] != [] && HasFreeSlots(r.b, t))
            && forall p :: p in h.waiting[t] && p !in r.waiting[t] ==> Asked(r.b, p)
  {
    hide EraseAll, Side;
    SideFills(h, 0);
    SideSeats(h, 0);
    SideFills(Side(h, 0), 1);
    SideSeats(Side(h, 0), 1);
    var r := Side(Side(h, 0), 1);
    GoneIsMember(h.waiting[t], |h.waiting[t]| - |r.waiting[t]|, r.waiting[t]);
  }

  /** Someone who left line `t` is asked by a battleground the pass may fill. */
  ghost predicate Placed(l: Lobby, r: Lobby, k: nat, level: nat, arena: bool, p: Guid)
    requires l.Shape() && r.Shape() && |r.instances| == |l.instances|
  {
    exists i :: k <= i < |l.instances| && Open(l.instances[i], level, arena) && Asked(r.instances[i], p)
  }

  /** Main theorem for the battlegrounds that exist already: each only gains asked players and none
      is overfilled; those who still wait in a line are its last ones; nobody waits while one of
      the battlegrounds has room; and whoever left the line is asked somewhere. */
  lemma {:induction false} ExistingOutcome(l: Lobby, k: nat, level: nat, arena: bool, t: Team)
    requires l.Shape() && k <= |l.instances|
    ensures var r := Existing(l, k, level, arena);
            && (forall i :: 0 <= i < |l.instances| ==> Gains(l.instances[i], r.instances[i]))
            && (forall i :: 0 <= i < k ==> l.instances[i] == r.instances[i])
            && Suffix(r.waiting[t], l.waiting[t])
            && (forall i :: k <= i < |l.instances| && Open(l.instances[i], level, arena) ==>
                  !(r.waiting[t] != [] && Room(r.instances[i], t, arena)))
            && (forall p :: p in l.waiting[t] && p !in r.waiting[t] ==> Placed(l, r, k, level, arena, p))
    decreases |l.instances| - k
  {
    hide WithinCap, Room, Asked, FillOne, AllAsked;
    if k < |l.instances| {
      var m := Visit(l, k, level, arena);
      VisitOutcome(l, k, level, arena, t);
      ExistingOutcome(m, k + 1, level, arena, t);
      var r := Existing(l, k, level, arena);
      forall i | 0 <= i < |l.instances| ensures Gains(l.instances[i], r.instances[i]) {
        GainsTwice(l.instances[i], m.instances[i], r.instances[i]);
      }
      forall p | p in l.waiting[t] && p !in r.waiting[t] ensures Placed(l, r, k, level, arena, p) {
        if p in m.waiting[t] {
          var i :| k + 1 <= i < |l.instances| && Open(m.instances[i], level, arena) && Asked(r.instances[i], p);
        }
      }
    } else {
      forall i | 0 <= i < |l.instances| ensures Gains(l.instances[i], l.instances[i]) { GainsItself(l.instances[i]); }
    }
  }

  lemma VisitOutcome(l: Lobby, k: nat, level: nat, arena: bool, t: Team)
    requires l.Shape() && k < |l.instances|
    ensures var r := Visit(l, k, level, arena);
            && (forall i :: 0 <= i < |l.instances| && i != k ==> l.instances[i] == r.instances[i])
            && Gains(l.instances[k], r.instances[k]) && Suffix(r.waiting[t], l.waiting[t])
            && (Open(l.instances[k], level, arena) ==>
                  && !(r.waiting[t] != [] && Room(r.instances[k], t, arena))
                  && forall p :: p in l.waiting[t] && p !in r.waiting[t] ==> Asked(r.instances[k], p))
            && (!Open(l.instances[k], level, arena) ==> r == l)
            && (forall i :: 0 <= i < |l.instances| ==> Gains(l.instances[i], r.instances[i]))
  {
    hide WithinCap, Room, Asked, FillOne, Gains;
    FillOneOutcome(Hall(l.instances[k], l.waiting, l.queue), arena, t);
    forall i | 0 <= i < |l.instances| ensures Gains(l.instances[i], l.instances[i]) { GainsItself(l.instances[i]); }
  }

  lemma GainsItself(b: Instance)
    requires b.Shape()
    ensures Gains(b, b)
  {
  }

  lemma GainsTwice(b: Instance, m: Instance, r: Instance)
    requires Gains(b, m) && Gains(m, r)
    ensures Gains(b, r)
  {
    hide WithinCap, AllAsked;
  }

  /** Filling all that exists erases exactly those who left the lines. */
  lemma {:induction false} ExistingErases(l: Lobby, k: nat, level: nat, arena: bool)
    requires l.Shape() && k <= |l.instances|
    ensures Erased(l.waiting, l.queue, Existing(l, k, level, arena).waiting, Existing(l, k, level, arena).queue)
    decreases |l.instances| - k
  {
    hide Erased, FillOne;
    if k == |l.instances| {
      ErasedNothing(l.waiting, l.queue);
    } else {
      var m := Visit(l, k, level, arena);
      if Open(l.instances[k], level, arena) {
        FillOneErases(Hall(l.instances[k], l.waiting, l.queue), arena);
      } else {
        ErasedNothing(l.waiting, l.queue);
      }
      ExistingErases(m, k + 1, level, arena);
      var r := Existing(m, k + 1, level, arena);
      ErasedTwice(l.waiting, l.queue, m.waiting, m.queue, r.waiting, r.queue);
    }
  }
}
