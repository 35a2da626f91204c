/** The creatures and their group as objects that call one another and change in place. */
module ChainAggroObjects {
  import opened Wrappers
  import opened ChainAggro

  class AIInterface {
    const unit: UnitId
    var alive: bool
    var fleeing: bool
    var taunted: bool
    var friendly: bool
    var state: AIState
    var threat: map<UnitId, int>
    var nextTarget: Option<UnitId>
    var highest: int
    var chain: ChainAggroEntity?

    function View(): Creature
      reads this
    {
      Creature(unit, alive, fleeing, taunted, friendly, state, threat, nextTarget, highest)
    }

    constructor (unit: UnitId)
      ensures View() == Creature(unit, true, false, false, false, Idle, map[], None, 0) && chain == null
    {
      this.unit, alive, fleeing, taunted, friendly := unit, true, false, false, false;
      state, threat, nextTarget, highest, chain := Idle, map[], None, 0, null;
    }

    method WipeTargetList()
      modifies `threat, `nextTarget, `highest
      ensures View() == old(View()).(threat := map[], nextTarget := None, highest := 0)
    {
      nextTarget := None;
      highest := 0;
      threat := map[];
    }

    method Raise(target: UnitId, modifier: int, mod: int)
      modifies `threat, `nextTarget, `highest
      ensures View() == AddThreat(old(View()), target, modifier, mod)
    {
      if target in threat {
        threat := threat[target := threat[target] + mod];
        if threat[target] + modifier > highest && !taunted {
          highest, nextTarget := threat[target] + modifier, Some(target);
        }
      } else {
        threat := threat[target := mod];
        if mod + modifier > highest && !taunted {
          highest, nextTarget := mod + modifier, Some(target);
        }
      }
    }

    method ModThreat(t: Target, mod: nat)
      requires Fair(t)
      modifies `threat, `nextTarget, `highest
      ensures View() == Hit(old(View()), t, mod)
    {
      var left := mod;
      if t.redirect.Redirect? && left > 0 {
        var part := t.redirect.part(left);
        left := left - part;
        if part > 0 && t.redirect.reachable { Raise(t.redirect.unit, t.redirect.modifier, part); }
      }
      Raise(t.unit, t.modifier, left);
    }

    /** The most hated valid target, if any is hated at all; targets that are not valid are
        forgotten. A taunting unit overrides the others. */
    method GetMostHated(valid: set<UnitId>, modifier: UnitId -> int, tauntedBy: Option<UnitId>) returns (best: Option<UnitId>)
      modifies `threat, `highest
      ensures tauntedBy.Some? ==> best == tauntedBy && unchanged(this)
      ensures tauntedBy.None? ==> threat == map u | u in old(threat) && u in valid :: old(threat)[u]
      ensures tauntedBy.None? && best.Some? ==> best.value in threat && highest == threat[best.value] + modifier(best.value) >= 0
      ensures tauntedBy.None? && best.Some? ==> forall u :: u in threat ==> threat[u] + modifier(u) <= highest
      ensures tauntedBy.None? && best.None? ==> highest == old(highest) && forall u :: u in threat ==> threat[u] + modifier(u) < 0
    {
      if tauntedBy.Some? { return tauntedBy; }
      best := None;
      var most := -1;
      var rest := threat.Keys;
      while rest != {}
        invariant rest <= threat.Keys <= old(threat).Keys && most >= -1
        invariant forall u :: u in old(threat) && u !in rest ==> (u in threat <==> u in valid)
        invariant forall u :: u in threat ==> threat[u] == old(threat)[u]
        invariant forall u :: u in old(threat) && u in rest ==> u in threat
        invariant forall u :: u in threat && u !in rest ==> threat[u] + modifier(u) <= most
        invariant match best
                  case None => most == -1 && highest == old(highest)
                  case Some(u) => u in threat && u !in rest && highest == most == threat[u] + modifier(u) && most >= 0
        decreases |rest|
      {
        var u :| u in rest;
        rest := rest - {u};
        if u !in valid {
          threat := threat - {u};
        } else if threat[u] + modifier(u) > most {
          best, most := Some(u), threat[u] + modifier(u);
          highest := most;
        }
      }
    }

    ghost predicate InGroup(i: nat)
      reads this, chain, if chain == null then {} else chain.Members()
    {
      chain != null && chain.Valid() && i < |chain.members| && chain.members[i] == this
    }

    /** `i` is the creature's position in its group, if it has one. */
    method AttackReaction(t: Target, damage: nat, ghost i: nat)
      requires Fair(t) && (chain != null ==> InGroup(i))
      modifies this, if chain == null then {} else chain.Members()
      ensures chain == old(chain)
      ensures chain == null ==> View() == Alone(old(View()), t, damage)
      ensures chain != null ==> chain.Valid() && chain.Views() == React(old(chain.Views()), t, i, damage)
      decreases if chain == null then 0 else Sleepers(chain.Views(), t), 0, 1
    {
      SameThreat(Wake(View()), View(), t, damage);
      hide Sleepers, Hit, CalcThreat, Chain, EnterCombat;
      if state == Evade || fleeing || !t.alive || !alive { return; }
      if unit == t.unit { return; }
      if state == Idle || state == Following {
        HandleEnterCombat(t, i);
      }
      HandleDamageTaken(t, damage, i);
    }

    method HandleEnterCombat(t: Target, ghost i: nat)
      requires Fair(t) && (chain != null ==> InGroup(i)) && Wakes(View(), t)
      modifies this, if chain == null then {} else chain.Members()
      ensures chain == old(chain)
      ensures chain == null ==> View() == Wake(old(View()))
      ensures chain != null ==> InGroup(i) && chain.Views() == EnterCombat(old(chain.Views())[i := Wake(old(View()))], t)
      decreases if chain == null then 0 else Sleepers(chain.Views(), t), 0, 0
    {
      hide Sleepers, Hit, CalcThreat, Chain, EnterCombat;
      WipeTargetList();
      state := Attacking;
      assert View() == Wake(old(View()));
      if chain != null {
        chain.OneChanged(old(chain.Views()), i);
        SleepersUpdate(old(chain.Views()), t, i, Wake(old(View())));
        chain.EventEnterCombat(t);
      }
    }

    method HandleDamageTaken(t: Target, damage: nat, ghost i: nat)
      requires Fair(t) && (chain != null ==> InGroup(i))
      modifies `threat, `nextTarget, `highest
      ensures View() == Hit(old(View()), t, CalcThreat(old(View()), t, damage))
      ensures chain != null ==> InGroup(i) && chain.Views() == old(chain.Views())[i := View()]
    {
      hide Hit, CalcThreat;
      ModThreat(t, CalcThreat(View(), t, damage));
      if chain != null { chain.OneChanged(old(chain.Views()), i); }
    }
  }

  /** A creature without a group. */
  function Alone(c: Creature, t: Target, damage: nat): Creature
    requires Fair(t)
  {
    if !Reacts(c, t) then c else Hit(if Asleep(c) then Wake(c) else c, t, CalcThreat(c, t, damage))
  }

  /** Such a creature holds the threat of the attack on top of what it had, or of nothing if it slept. */
  lemma AloneThreat(c: Creature, t: Target, damage: nat, unit: UnitId, hit: nat)
    requires Fair(t) && c.alive && t.alive && c.state != Evade && !c.fleeing && c.unit != t.unit
    requires c.friendly ==> hit == 0
    requires !c.friendly && t.generated >= 0 ==> 100 * hit <= 100 * damage + damage * t.generated < 100 * hit + 100
    requires !c.friendly && t.generated < 0 ==>
      100 * damage + damage * t.generated <= 100 * hit < 100 * damage + damage * t.generated + 100
    ensures var (r, slept) := (Alone(c, t, damage), c.state == Idle || c.state == Following);
            && r.state == (if slept then Attacking else c.state)
            && ThreatOf(r, unit) == (if slept then 0 else ThreatOf(c, unit)) + Share(t, unit, hit)
  {
    var awake := if Asleep(c) then Wake(c) else c;
    ThreatIs(c, t, damage);
    HitThreat(awake, t, hit, unit);
    HitSleeps(awake, t, hit);
    hide CalcThreat, Hit, Share;
  }

  class ChainAggroEntity {
    var members: seq<AIInterface>

    ghost function Members(): set<object>
      reads this
    {
      set m | m in members
    }

    ghost predicate Valid()
      reads this, Members()
    {
      && (forall i, j :: 0 <= i < j < |members| ==> members[i] != members[j])
      && (forall m :: m in members ==> m.chain == this)
    }

    ghost function Views(): (w: seq<Creature>)
      reads this, Members()
      ensures |w| == |members| && forall i :: 0 <= i < |w| ==> w[i] == members[i].View()
    {
      seq(|members|, i requires 0 <= i < |members| reads this, Members() => members[i].View())
    }

    constructor (owner: AIInterface)
      modifies owner
      ensures Valid() && members == [owner] && owner.View() == old(owner.View())
    {
      members := [owner];
      new;
      owner.chain := this;
    }

    /** A creature that is in another group must leave it first: that group keeps it otherwise. */
    method AddAggroEntity(c: AIInterface)
      requires Valid()
      modifies this, c
      ensures Valid() && c.View() == old(c.View())
      ensures members == if c in old(members) then old(members) else old(members) + [c]
    {
      c.chain := this;
      if c !in members { members := members + [c]; }
    }

    /** The group is deleted with its last member. */
    method RemoveAggroEntity(c: AIInterface) returns (deleted: bool)
      requires Valid() && c in members
      modifies this, c
      ensures Valid() && c.chain == null && c.View() == old(c.View())
      ensures c !in members && exists i :: 0 <= i < |old(members)| && old(members)[i] == c && members == old(members)[..i] + old(members)[i + 1..]
      ensures deleted <==> members == []
    {
      c.chain := null;
      var i :| 0 <= i < |members| && members[i] == c;
      members := members[..i] + members[i + 1..];
      deleted := |members| == 0;
    }

    /** The views once only member `i` has changed. */
    lemma OneChanged(before: seq<Creature>, i: nat)
      requires i < |before| == |members| && forall m :: 0 <= m < |members| && m != i ==> members[m].View() == before[m]
      ensures Views() == before[i := members[i].View()]
    {
    }

    method EventEnterCombat(t: Target)
      requires Fair(t) && Valid()
      modifies Members()
      ensures Valid() && Views() == EnterCombat(old(Views()), t)
      decreases Sleepers(Views(), t), 2, 0
    {
      hide Sleepers, React;
      if t.gmInvisible { return; }
      for j := 0 to |members|
        invariant Valid() && members == old(members) && Sleepers(Views(), t) <= Sleepers(old(Views()), t)
        invariant Chain(Views(), t, j) == Chain(old(Views()), t, 0)
      {
        if !members[j].alive { continue; }
        members[j].AttackReaction(t, 1, j);
      }
    }
  }
}
