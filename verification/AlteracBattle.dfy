/** The battleground object, whose methods update its fields in place. */
module AlteracBattle {
  import opened Wrappers
  import opened AlteracValleyModel
  import AV = AlteracValleyModel

  class AlteracValley {
    var nodes: seq<Node>
    var reinforcements: seq<nat>
    var ended: bool
    var losingTeam: Team
    var events: set<NodeId>

    ghost function View(): Battle
      reads this
    {
      Battle(nodes, reinforcements, if ended then Some(losingTeam) else None, events)
    }

    ghost predicate Valid()
      reads this
    {
      View().Shape() && forall i: NodeId :: NodeInv(View(), i)
    }

    constructor ()
      ensures Valid() && View() == NewBattle()
    {
      nodes := seq(NUM_NODES, i requires 0 <= i < NUM_NODES => Node(DefaultState(i), DefaultState(i), false));
      reinforcements := [NUM_REINFORCEMENTS, NUM_REINFORCEMENTS];
      ended, losingTeam, events := false, 0, {};
      new;
      forall i: NodeId ensures NodeInv(NewBattle(), i) { NewNodes(i); }
    }

    method Finish(losing: Team)
      modifies this
      ensures View() == AV.Finish(old(View()), losing)
    {
      if ended { return; }
      ended, losingTeam := true, losing;
      events := {};
    }

    method RemoveReinforcements(t: Team, amount: nat)
      requires View().Shape()
      modifies this
      ensures View() == AV.RemoveReinforcements(old(View()), t, amount)
    {
      if reinforcements[t] - amount < 0 {
        reinforcements := reinforcements[t := 0];
      } else {
        reinforcements := reinforcements[t := reinforcements[t] - amount];
      }
      if reinforcements[t] == 0 { Finish(t); }
    }

    method ChangeState(i: NodeId, state: NodeState)
      requires View().Shape()
      modifies `nodes
      ensures nodes == old(nodes)[i := AV.ChangeState(old(nodes[i]), state)]
    {
      var n := nodes[i];
      nodes := nodes[i := n.(last := n.state, state := state)];
    }

    method Capture(i: NodeId)
      requires View().Shape()
      modifies this
      ensures View() == AV.Capture(old(View()), i)
    {
      if nodes[i].destroyed { return; }
      events := events - {i};
      if nodes[i].state == Assaulting(1) {
        ChangeState(i, Controlled(1));
      } else {
        ChangeState(i, Controlled(0));
      }
      if !Capturable(i) && nodes[i].state != DefaultState(i) {
        nodes := nodes[i := nodes[i].(destroyed := true)];
        if DefaultState(i) == Controlled(0) {
          RemoveReinforcements(0, POINTS_ON_DESTROY_BUNKER);
        } else {
          RemoveReinforcements(1, POINTS_ON_DESTROY_BUNKER);
        }
      }
    }

    method Assault(i: NodeId, team: Team)
      requires Valid()
      modifies this
      ensures Valid() && View() == Step(old(View()), TakeFlag(i, team))
    {
      KeepsNodes(TakeFlag(i, team));
      if nodes[i].state == Assaulting(team) || nodes[i].state == Controlled(team) { return; }
      if nodes[i].destroyed { return; }
      if nodes[i].last == Controlled(team) {
        nodes := nodes[i := nodes[i].(state := Assaulting(team))];
        Capture(i);
        return;
      }
      events := events - {i};
      events := events + {i};
      assert events == old(events) + {i};
      ChangeState(i, Assaulting(team));
    }

    /** A pending capture event fires, once. */
    method EventAssaultControlPoint(i: NodeId)
      requires Valid() && i in events
      modifies this
      ensures Valid() && View() == Step(old(View()), CaptureTimer(i))
    {
      KeepsNodes(CaptureTimer(i));
      events := events - {i};
      Capture(i);
    }

    method HookOnPlayerDeath(team: Team)
      requires Valid()
      modifies this
      ensures Valid() && View() == Step(old(View()), PlayerDeath(team))
    {
      KeepsNodes(PlayerDeath(team));
      RemoveReinforcements(team, POINTS_ON_KILL);
    }

    /** The victims that matter: the two generals and the two captains. */
    method HookOnUnitKill(victim: Event)
      requires Valid() && (victim.GeneralKill? || victim.CaptainKill?)
      modifies this
      ensures Valid() && View() == Step(old(View()), victim)
    {
      KeepsNodes(victim);
      if victim.GeneralKill? {
        RemoveReinforcements(victim.team, NUM_REINFORCEMENTS);
      } else {
        RemoveReinforcements(victim.team, POINTS_ON_KILL_CAPTAIN);
      }
    }

    lemma KeepsNodes(ev: Event)
      requires Valid()
      ensures Step(View(), ev).Shape() && forall i: NodeId :: NodeInv(Step(View(), ev), i)
    {
      forall i: NodeId ensures NodeInv(Step(View(), ev), i) { StepKeepsNode(View(), ev, i); }
    }
  }
}
