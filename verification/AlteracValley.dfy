/** Alterac Valley's nodes (graveyards, mines and towers), reinforcements and end. */
module AlteracValleyModel {
  import opened Wrappers

  /** 0 is the Alliance, 1 the Horde. */
  type Team = t: nat | t < 2

  function Other(t: Team): Team { 1 - t }

  const NUM_NODES: nat := 17
  const NUM_REINFORCEMENTS: nat := 600
  const POINTS_ON_DESTROY_BUNKER: nat := 75
  const POINTS_ON_KILL: nat := 1
  const POINTS_ON_KILL_CAPTAIN: nat := 100

  type NodeId = n: nat | n < NUM_NODES

  datatype NodeState = Neutral | Assaulting(team: Team) | Controlled(team: Team)

  /** m_defaultState of the node templates. */
  function DefaultState(n: NodeId): NodeState {
    if n < 3 || 9 <= n < 13 then Controlled(0) else if n < 6 then Neutral else Controlled(1)
  }

  /** The nodes that are not capturable are the bunkers and towers. */
  predicate Capturable(n: NodeId) { n < 9 }

  datatype Node = Node(state: NodeState, last: NodeState, destroyed: bool)

  /** `timers` holds the nodes whose capture event is pending. */
  datatype Battle = Battle(nodes: seq<Node>, reinforcements: seq<nat>, loser: Option<Team>, timers: set<NodeId>) {
    predicate Shape() { |nodes| == NUM_NODES && |reinforcements| == 2 }
  }

  // ---- The source's steps ----------------------------------------------------------------

  function ChangeState(n: Node, state: NodeState): Node { Node(state, n.state, n.destroyed) }

  function Finish(b: Battle, losing: Team): Battle {
    if b.loser.Some? then b else b.(loser := Some(losing), timers := {})
  }

  function RemoveReinforcements(b: Battle, t: Team, amount: nat): (r: Battle)
    requires b.Shape()
    ensures r.Shape() && r.nodes == b.nodes
  {
    var left := if b.reinforcements[t] < amount then 0 else b.reinforcements[t] - amount;
    var r := b.(reinforcements := b.reinforcements[t := left]);
    if left == 0 then Finish(r, t) else r
  }

  function Capture(b: Battle, i: NodeId): (r: Battle)
    requires b.Shape()
    ensures r.Shape()
  {
    var n := b.nodes[i];
    if n.destroyed then b
    else
      var taken := ChangeState(n, Controlled(if n.state == Assaulting(1) then 1 else 0));
      var lost := !Capturable(i) && taken.state != DefaultState(i);
      var r := b.(nodes := b.nodes[i := taken.(destroyed := lost)], timers := b.timers - {i});
      if !lost then r
      else if DefaultState(i) == Controlled(0) then RemoveReinforcements(r, 0, POINTS_ON_DESTROY_BUNKER)
      else RemoveReinforcements(r, 1, POINTS_ON_DESTROY_BUNKER)
  }

  function Assault(b: Battle, i: NodeId, t: Team): (r: Battle)
    requires b.Shape()
    ensures r.Shape()
  {
    var n := b.nodes[i];
    if n.state == Assaulting(t) || n.state == Controlled(t) then b
    else if n.destroyed then b
    else if n.last == Controlled(t) then Capture(b.(nodes := b.nodes[i := n.(state := Assaulting(t))]), i)
    else b.(nodes := b.nodes[i := ChangeState(n, Assaulting(t))], timers := b.timers + {i})
  }

  datatype Event =
    | TakeFlag(node: NodeId, team: Team)
    | CaptureTimer(node: NodeId)
    | PlayerDeath(team: Team)
    | CaptainKill(team: Team)
    | GeneralKill(team: Team)

  /** The event manager fires a capture event that is pending, once. */
  function Step(b: Battle, ev: Event): (r: Battle)
    requires b.Shape()
    ensures r.Shape()
  {
    match ev
    case TakeFlag(i, t) => Assault(b, i, t)
    case CaptureTimer(i) => if i in b.timers then Capture(b.(timers := b.timers - {i}), i) else b
    case PlayerDeath(t) => RemoveReinforcements(b, t, POINTS_ON_KILL)
    case CaptainKill(t) => RemoveReinforcements(b, t, POINTS_ON_KILL_CAPTAIN)
    case GeneralKill(t) => RemoveReinforcements(b, t, NUM_REINFORCEMENTS)
  }

  function NewBattle(): Battle {
    Battle(seq(NUM_NODES, i requires 0 <= i < NUM_NODES => Node(DefaultState(i), DefaultState(i), false)),
           [NUM_REINFORCEMENTS, NUM_REINFORCEMENTS], None, {})
  }

  function Run(evs: seq<Event>): (r: Battle)
    ensures r.Shape()
    decreases |evs|
  {
    if evs == [] then NewBattle() else Step(Run(evs[..|evs| - 1]), evs[|evs| - 1])
  }

  // ---- Nodes -----------------------------------------------------------------------------

  /** Was held by nobody yet, is held, or is being taken; `from` is the holder that the present
      assault interrupted, if the node was held just before it. */
  datatype Site = Unheld | Held(team: Team) | Contested(team: Team, from: Option<Team>)

  function SiteOf(n: Node): Site {
    match n.state
    case Neutral => Unheld
    case Controlled(t) => Held(t)
    case Assaulting(t) => Contested(t, if n.last.Controlled? then Some(n.last.team) else None)
  }

  predicate Fallen(i: NodeId, s: Site) { !Capturable(i) && s.Held? && DefaultState(i) != Controlled(s.team) }

  /** The rules of one node, without states, flags of destruction or timers. */
  function SiteStep(i: NodeId, s: Site, ev: Event): Site {
    if Fallen(i, s) then s
    else match ev
      case TakeFlag(j, t) =>
        if j != i then s
        else (match s
          case Unheld => Contested(t, None)
          case Held(o) => if o == t then s else Contested(t, Some(o))
          case Contested(o, from) => if o == t then s else if from == Some(t) then Held(t) else Contested(t, None))
      case CaptureTimer(j) => if j == i && s.Contested? then Held(s.team) else s
      case _ => s
  }

  function SiteRun(i: NodeId, evs: seq<Event>): Site
    decreases |evs|
  {
    if evs == [] then (if DefaultState(i).Controlled? then Held(DefaultState(i).team) else Unheld)
    else SiteStep(i, SiteRun(i, evs[..|evs| - 1]), evs[|evs| - 1])
  }

  /** What holds of a node in every state. */
  ghost predicate NodeInv(b: Battle, i: NodeId)
    requires b.Shape()
  {
    var n := b.nodes[i];
    && (n.state.Assaulting? ==> n.last != Controlled(n.state.team) && n.last != Assaulting(n.state.team))
    && (n.state.Neutral? ==> n.last.Neutral?)
    && (n.state.Controlled? ==> n.last == n.state || n.last == Assaulting(n.state.team))
    && (!Capturable(i) && n.last.Controlled? ==> n.last == DefaultState(i))
    && (n.destroyed <==> Fallen(i, SiteOf(n)))
    && (i in b.timers ==> n.state.Assaulting?)
    && (b.loser.None? && n.state.Assaulting? ==> i in b.timers)
  }

  /** What an event leaves of a node: the invariant, a destroyed node as it was, and until the end
      the node's rules; the loser stays. */
  ghost predicate NodeFollows(b: Battle, r: Battle, i: NodeId, ev: Event)
    requires b.Shape() && r.Shape()
  {
    && NodeInv(r, i)
    && (b.nodes[i].destroyed ==> r.nodes[i] == b.nodes[i])
    && (b.loser.None? ==> SiteOf(r.nodes[i]) == SiteStep(i, SiteOf(b.nodes[i]), ev))
    && (b.loser.Some? ==> r.loser == b.loser)
  }

  lemma RemoveKeepsNode(b: Battle, t: Team, amount: nat, i: NodeId)
    requires b.Shape() && NodeInv(b, i)
    ensures NodeInv(RemoveReinforcements(b, t, amount), i)
    ensures b.loser.Some? ==> RemoveReinforcements(b, t, amount).loser == b.loser
  {
  }

  /** Another node is captured. */
  lemma CaptureKeepsOther(b: Battle, j: NodeId, i: NodeId)
    requires b.Shape() && NodeInv(b, i) && i != j
    ensures NodeInv(Capture(b, j), i) && Capture(b, j).nodes[i] == b.nodes[i]
    ensures b.loser.Some? ==> Capture(b, j).loser == b.loser
  {
    hide RemoveReinforcements;
    var n := b.nodes[j];
    var taken := ChangeState(n, Controlled(if n.state == Assaulting(1) then 1 else 0));
    var lost := !Capturable(j) && taken.state != DefaultState(j);
    var r := b.(nodes := b.nodes[j := taken.(destroyed := lost)], timers := b.timers - {j});
    RemoveKeepsNode(r, 0, POINTS_ON_DESTROY_BUNKER, i);
    RemoveKeepsNode(r, 1, POINTS_ON_DESTROY_BUNKER, i);
  }

  /** The node's own capture, by its timer or by an instant return. */
  lemma CaptureFollows(b: Battle, i: NodeId, t: Team)
    requires b.Shape() && !b.nodes[i].destroyed && b.nodes[i].state == Assaulting(t)
    ensures var r := Capture(b, i);
            && NodeInv(r, i) && r.nodes[i].state == Controlled(t)
            && (b.loser.Some? ==> r.loser == b.loser)
  {
    hide RemoveReinforcements;
    var taken := ChangeState(b.nodes[i], Controlled(t));
    var lost := !Capturable(i) && taken.state != DefaultState(i);
    var r := b.(nodes := b.nodes[i := taken.(destroyed := lost)], timers := b.timers - {i});
    RemoveKeepsNode(r, 0, POINTS_ON_DESTROY_BUNKER, i);
    RemoveKeepsNode(r, 1, POINTS_ON_DESTROY_BUNKER, i);
  }

  lemma AssaultFollows(b: Battle, j: NodeId, t: Team, i: NodeId)
    requires b.Shape() && NodeInv(b, i)
    ensures NodeFollows(b, Assault(b, j, t), i, TakeFlag(j, t))
  {
    hide Capture;
    var n := b.nodes[j];
    var returning := b.(nodes := b.nodes[j := n.(state := Assaulting(t))]);
    if i != j {
      CaptureKeepsOther(returning, j, i);
    } else if !n.destroyed && n.last == Controlled(t) {
      CaptureFollows(returning, i, t);
    }
  }

  lemma TimerFollows(b: Battle, j: NodeId, i: NodeId)
    requires b.Shape() && NodeInv(b, i)
    ensures NodeFollows(b, Step(b, CaptureTimer(j)), i, CaptureTimer(j))
  {
    hide Capture;
    var fired := b.(timers := b.timers - {j});
    if j in b.timers {
      if i != j {
        CaptureKeepsOther(fired, j, i);
      } else {
        CaptureFollows(fired, i, b.nodes[i].state.team);
      }
    }
  }

  lemma StepKeepsNode(b: Battle, ev: Event, i: NodeId)
    requires b.Shape() && NodeInv(b, i)
    ensures NodeInv(Step(b, ev), i)
    ensures b.nodes[i].destroyed ==> Step(b, ev).nodes[i] == b.nodes[i]
    ensures b.loser.None? ==> SiteOf(Step(b, ev).nodes[i]) == SiteStep(i, SiteOf(b.nodes[i]), ev)
    ensures b.loser.Some? ==> Step(b, ev).loser == b.loser
  {
    hide Capture, Assault, RemoveReinforcements, NodeInv;
    match ev {
      case TakeFlag(j, t) => AssaultFollows(b, j, t, i);
      case CaptureTimer(j) => TimerFollows(b, j, i);
      case PlayerDeath(t) => RemoveKeepsNode(b, t, POINTS_ON_KILL, i);
      case CaptainKill(t) => RemoveKeepsNode(b, t, POINTS_ON_KILL_CAPTAIN, i);
      case GeneralKill(t) => RemoveKeepsNode(b, t, NUM_REINFORCEMENTS, i);
    }
  }

  lemma NewNodes(i: NodeId)
    ensures NodeInv(NewBattle(), i)
  {
  }

  /** In every run a capture timer is pending only while its node is being assaulted and, until
      the end, whenever it is; a node is destroyed exactly when it is a tower that the enemy of
      its first owner controls. */
  lemma {:induction false} NodesInEveryRun(evs: seq<Event>, i: NodeId)
    ensures NodeInv(Run(evs), i)
    decreases |evs|
  {
    if evs == [] {
      NewNodes(i);
    } else {
      NodesInEveryRun(evs[..|evs| - 1], i);
      StepKeepsNode(Run(evs[..|evs| - 1]), evs[|evs| - 1], i);
    }
  }

  /** Until the end every node follows the rules of SiteStep: the only team that gets a node back
      without waiting is the one whose control the present assault interrupted. */
  lemma {:induction false} NodesFollowTheRules(evs: seq<Event>, i: NodeId)
    requires Run(evs).loser.None?
    ensures SiteOf(Run(evs).nodes[i]) == SiteRun(i, evs)
    decreases |evs|
  {
    if evs != [] {
      var front := evs[..|evs| - 1];
      NodesInEveryRun(front, i);
      StepKeepsNode(Run(front), evs[|evs| - 1], i);
      NodesFollowTheRules(front, i);
    }
  }

  /** A destroyed tower never changes again, and a recorded loser stays. */
  lemma {:induction false} Forever(evs: seq<Event>, more: seq<Event>, i: NodeId)
    ensures Run(evs).nodes[i].destroyed ==> Run(evs + more).nodes[i] == Run(evs).nodes[i]
    ensures Run(evs).loser.Some? ==> Run(evs + more).loser == Run(evs).loser
    decreases |more|
  {
    if more == [] {
      assert evs + more == evs;
    } else {
      var before := evs + more[..|more| - 1];
      assert (evs + more)[..|evs + more| - 1] == before;
      Forever(evs, more[..|more| - 1], i);
      NodesInEveryRun(before, i);
      StepKeepsNode(Run(before), more[|more| - 1], i);
    }
  }

  // ---- Reinforcements --------------------------------------------------------------------

  /** The destroyed nodes below `k` that were team t's own. */
  function TowersLost(nodes: seq<Node>, k: nat, t: Team): nat
    requires k <= NUM_NODES == |nodes|
  {
    if k == 0 then 0
    else TowersLost(nodes, k - 1, t) + if nodes[k - 1].destroyed && DefaultState(k - 1) == Controlled(t) then 1 else 0
  }

  lemma {:induction false} TowersLostUpdate(nodes: seq<Node>, k: nat, t: Team, i: NodeId, n: Node)
    requires k <= NUM_NODES == |nodes|
    ensures TowersLost(nodes[i := n], k, t)
         == TowersLost(nodes, k, t)
          + if i < k && DefaultState(i) == Controlled(t) then (if n.destroyed then 1 else 0) - (if nodes[i].destroyed then 1 else 0)
            else 0
  {
    if k > 0 { TowersLostUpdate(nodes, k - 1, t, i, n); }
  }

  /** What team t has lost: the events are counted, so their order does not matter. */
  function Toll(evs: multiset<Event>, towers: nat, t: Team): nat {
    POINTS_ON_KILL * evs[PlayerDeath(t)] + POINTS_ON_KILL_CAPTAIN * evs[CaptainKill(t)]
    + NUM_REINFORCEMENTS * evs[GeneralKill(t)] + POINTS_ON_DESTROY_BUNKER * towers
  }

  function Left(toll: nat): nat { if toll > NUM_REINFORCEMENTS then 0 else NUM_REINFORCEMENTS - toll }

  lemma CaptureCost(b: Battle, i: NodeId, t: Team)
    requires b.Shape()
    requires b.nodes[i].destroyed ==> !Capturable(i)
    ensures var (before, after) := (TowersLost(b.nodes, NUM_NODES, t), TowersLost(Capture(b, i).nodes, NUM_NODES, t));
            && before <= after <= before + 1
            && Capture(b, i).reinforcements[t]
               == if after == before || b.reinforcements[t] >= POINTS_ON_DESTROY_BUNKER
                  then b.reinforcements[t] - POINTS_ON_DESTROY_BUNKER * (after - before) else 0
  {
    hide TowersLost;
    TowersLostUpdate(b.nodes, NUM_NODES, t, i, Capture(b, i).nodes[i]);
    assert b.nodes[i := b.nodes[i]] == b.nodes;
  }

  lemma AssaultCost(b: Battle, i: NodeId, t: Team, taker: Team)
    requires b.Shape() && NodeInv(b, i)
    ensures TowersLost(Assault(b, i, taker).nodes, NUM_NODES, t) == TowersLost(b.nodes, NUM_NODES, t)
    ensures Assault(b, i, taker).reinforcements == b.reinforcements
  {
    hide TowersLost;
    TowersLostUpdate(b.nodes, NUM_NODES, t, i, Assault(b, i, taker).nodes[i]);
    assert b.nodes[i := b.nodes[i]] == b.nodes;
    assert Assault(b, i, taker).nodes == b.nodes[i := Assault(b, i, taker).nodes[i]];
  }

  lemma StepToll(b: Battle, evs: multiset<Event>, ev: Event, t: Team)
    requires b.Shape() && forall i: NodeId :: NodeInv(b, i)
    requires b.reinforcements[t] == Left(Toll(evs, TowersLost(b.nodes, NUM_NODES, t), t))
    ensures Step(b, ev).reinforcements[t]
         == Left(Toll(evs + multiset{ev}, TowersLost(Step(b, ev).nodes, NUM_NODES, t), t))
  {
    hide TowersLost;
    if ev.TakeFlag? {
      AssaultCost(b, ev.node, t, ev.team);
    } else if ev.CaptureTimer? && ev.node in b.timers {
      assert NodeInv(b, ev.node);
      CaptureCost(b.(timers := b.timers - {ev.node}), ev.node, t);
    }
  }

  lemma StepEnds(b: Battle, ev: Event)
    requires b.Shape() && (b.loser.Some? <==> b.reinforcements[0] == 0 || b.reinforcements[1] == 0)
    requires b.loser.Some? ==> b.reinforcements[b.loser.value] == 0
    ensures var r := Step(b, ev);
            && (r.loser.Some? <==> r.reinforcements[0] == 0 || r.reinforcements[1] == 0)
            && (r.loser.Some? ==> r.reinforcements[r.loser.value] == 0)
  {
  }

  lemma NoTowersLost(k: nat, t: Team)
    requires k <= NUM_NODES
    ensures TowersLost(NewBattle().nodes, k, t) == 0
  {
  }

  /** Main theorem: a team's reinforcements are 600 less the weighted sum of its losses, whatever
      the order of the events, and the battle has a loser exactly when a team has none left. */
  lemma {:induction false} ReinforcementsInEveryRun(evs: seq<Event>, t: Team)
    ensures Run(evs).reinforcements[t] == Left(Toll(multiset(evs), TowersLost(Run(evs).nodes, NUM_NODES, t), t))
    ensures Run(evs).loser.Some? <==> Run(evs).reinforcements[0] == 0 || Run(evs).reinforcements[1] == 0
    ensures Run(evs).loser.Some? ==> Run(evs).reinforcements[Run(evs).loser.value] == 0
    decreases |evs|
  {
    if evs == [] {
      NoTowersLost(NUM_NODES, t);
    } else {
      var front, ev := evs[..|evs| - 1], evs[|evs| - 1];
      assert evs == front + [ev];
      ReinforcementsInEveryRun(front, t);
      forall i: NodeId ensures NodeInv(Run(front), i) { NodesInEveryRun(front, i); }
      StepToll(Run(front), multiset(front), ev, t);
      StepEnds(Run(front), ev);
    }
  }
}
