/** Alterac Valley told by node numbers and points. Nodes 0 to 8 are graveyards and mines, 9 to 12 the
    bunkers of the Alliance, 13 to 16 the towers of the Horde. */
module AlteracNumbers {
  import opened Wrappers
  import opened AlteracValleyModel

  /** Who holds what at the start, and that both teams have 600 reinforcements. */
  lemma StartIs(i: NodeId)
    ensures var (b, n) := (NewBattle(), NewBattle().nodes[i]);
            && n.state == n.last && !n.destroyed
            && (n.state == Controlled(0) <==> i <= 2 || 9 <= i <= 12)
            && (n.state == Neutral <==> 3 <= i <= 5)
            && (n.state == Controlled(1) <==> 6 <= i <= 8 || 13 <= i)
            && b.reinforcements == [600, 600] && b.loser == None && b.timers == {}
  {
  }

  /** In every run the Alliance's bunkers are destroyed exactly when the Horde controls them, the
      Horde's towers when the Alliance does, and the other nodes never. */
  lemma TowersInEveryRun(evs: seq<Event>, i: NodeId)
    ensures var n := Run(evs).nodes[i];
            n.destroyed <==> (9 <= i <= 12 && n.state == Controlled(1)) || (i >= 13 && n.state == Controlled(0))
  {
    NodesInEveryRun(evs, i);
    hide Run;
  }

  lemma {:induction false} TowersLostIs(nodes: seq<Node>, k: nat, t: Team, lost: set<nat>)
    requires k <= NUM_NODES == |nodes|
    requires forall i :: i in lost <==> 0 <= i < k && nodes[i].destroyed && DefaultState(i) == Controlled(t)
    ensures TowersLost(nodes, k, t) == |lost|
  {
    if k == 0 {
      assert lost == {};
    } else {
      TowersLostIs(nodes, k - 1, t, lost - {k - 1});
    }
  }

  /** The bunkers or towers of team `t` that the other team controls. */
  function EnemyTowers(b: Battle, t: Team): set<nat>
    requires b.Shape()
  {
    if t == 0 then set i: nat | 9 <= i <= 12 && b.nodes[i].state == Controlled(1)
    else set i: nat | 13 <= i <= 16 && b.nodes[i].state == Controlled(0)
  }

  /** Main theorem in numbers: a team is left with 600 reinforcements less one for each player that
      died, 100 for each captain, 600 for each general and 75 for each of its towers in the enemy's
      hands; or with none if that is more than 600. */
  lemma LeftInEveryRun(evs: seq<Event>, t: Team)
    ensures var (b, m) := (Run(evs), multiset(evs));
            var toll := m[PlayerDeath(t)] + 100 * m[CaptainKill(t)] + 600 * m[GeneralKill(t)] + 75 * |EnemyTowers(b, t)|;
            && b.reinforcements[t] == (if toll <= 600 then 600 - toll else 0)
            && (b.loser == Some(t) ==> toll >= 600)
  {
    ReinforcementsInEveryRun(evs, t);
    var b := Run(evs);
    forall i: NodeId ensures b.nodes[i].destroyed <==> (9 <= i <= 12 && b.nodes[i].state == Controlled(1)) || (i >= 13 && b.nodes[i].state == Controlled(0)) {
      TowersInEveryRun(evs, i);
    }
    hide Run, TowersLost;
    TowersLostIs(b.nodes, NUM_NODES, t, EnemyTowers(b, t));
  }
}
