/** The handlers of one player, which change the player's progress and the realm's set in place. */
module AchievementHandlers {
  import opened Achievements

  /** m_completedRealmFirstAchievements, shared by all players. */
  class RealmFirsts {
    var completed: set<Id>

    constructor ()
      ensures completed == {}
    {
      completed := {};
    }
  }

  class AchievementInterface {
    const table: Table
    const realm: RealmFirsts
    const gm: bool
    const team: nat
    var inGroup: bool
    var data: map<Id, Progress>
    ghost var earned: seq<Id>

    ghost function View(): Session
      reads this, realm
    {
      Session(Player(gm, team, inGroup, data, earned), realm.completed)
    }

    ghost predicate Valid()
      reads this, realm
    {
      Wf(table, View())
    }

    constructor (table: Table, realm: RealmFirsts, gm: bool, team: nat)
      requires table.Valid()
      ensures Valid() && View() == Session(Player(gm, team, false, map[], []), realm.completed)
      ensures this.table == table && this.realm == realm
    {
      this.table, this.realm, this.gm, this.team := table, realm, gm, team;
      inGroup, data, earned := false, map[], [];
    }

    method CanCompleteAchievement(a: Id) returns (ok: bool)
      requires Valid() && a in data
      ensures ok == CanComplete(table, View(), a)
      ensures var (ach, d) := (table.achievements[a], data[a]);
              var n := |ach.criteria|;
              ok <==>
              && !gm && !d.completed && !ach.statistic && a !in realm.completed
              && (forall i :: 0 <= i < n ==> d.counters[i] > 0)
              && (forall i :: 0 <= i < n && table.criteria[ach.criteria[i]].notInGroup ==> !inGroup)
              && (n > 0 ==> !(ach.faction == AllianceOnly && team == 1) && !(ach.faction == HordeOnly && team == 0))
              && (forall i :: 0 <= i < n && !table.criteria[ach.criteria[i]].completeOne ==>
                    var c := table.criteria[ach.criteria[i]];
                    d.counters[i] >= c.required && (c.timeLimit == 0 || c.timeLimit >= d.timeLast))
              && ((exists i :: 0 <= i < n && table.criteria[ach.criteria[i]].completeOne) ==>
                  exists i :: 0 <= i < n && table.criteria[ach.criteria[i]].completeOne &&
                    var c := table.criteria[ach.criteria[i]];
                    d.counters[i] >= c.required && (c.timeLimit == 0 || c.timeLimit >= d.timeLast))
    {
      CanCompleteMeans(table, View(), a);
      if gm { return false; }
      if data[a].completed { return false; }
      var ach := table.achievements[a];
      if ach.statistic { return false; }
      if a in realm.completed { return false; }
      var n := |ach.criteria|;
      for i := 0 to n
        invariant forall j :: 0 <= j < i ==> data[a].counters[j] != 0
      {
        if data[a].counters[i] == 0 { return false; }
      }
      var failedOne, hasCompleted := false, false;
      for i := 0 to n
        invariant forall j :: 0 <= j < i ==> !Grouped(table, View(), a, j)
        invariant forall j :: 0 <= j < i && Fails(table, View(), a, j) ==> Optional(table, View(), a, j)
        invariant failedOne == exists j :: 0 <= j < i && Fails(table, View(), a, j)
        invariant hasCompleted == exists j :: 0 <= j < i && !Fails(table, View(), a, j) && Optional(table, View(), a, j)
      {
        var c := table.criteria[ach.criteria[i]];
        var required := if c.required != 0 then c.required else 1;
        if c.notInGroup && inGroup {
          assert Grouped(table, View(), a, i);
          return false;
        }
        var thisFail := c.timeLimit != 0 && c.timeLimit < data[a].timeLast;
        if data[a].counters[i] < required { thisFail := true; }
        if ach.faction == AllianceOnly && team == 1 { thisFail := true; }
        if ach.faction == HordeOnly && team == 0 { thisFail := true; }
        assert thisFail == Fails(table, View(), a, i) && c.completeOne == Optional(table, View(), a, i);
        if thisFail && c.completeOne { failedOne := true; }
        else if thisFail { return false; }
        if !thisFail && c.completeOne { hasCompleted := true; }
      }
      ok := !(failedOne && !hasCompleted);
    }

    method GetAchievementData(a: Id)
      requires Valid() && a in table.achievements
      modifies `data
      ensures View() == Track(table, old(View()), a)
    {
      if a !in data {
        data := data[a := Progress(false, seq(|table.achievements[a].criteria|, _ => 0), 0)];
      }
    }

    /** Finds the criterion in the achievement's list and counts it. */
    method Count(a: Id, c: CriterionId)
      requires Valid() && a in data
      modifies `data
      ensures View() == Bump(table, old(View()), a, c)
    {
      var criteria := table.achievements[a].criteria;
      for i := 0 to |criteria|
        invariant data == old(data)
        invariant forall j :: 0 <= j < i ==> criteria[j] != c
      {
        if criteria[i] == c {
          assert i == Position(criteria, c);
          data := data[a := data[a].(counters := data[a].counters[i := Increment(data[a].counters[i])])];
          return;
        }
      }
    }

    method EventAchievementEarned(a: Id)
      requires Valid() && a in data && !data[a].completed
      modifies this, realm
      ensures Valid() && View() == Earn(table, old(View()), a)
      decreases |Open(table, View())|, 0
    {
      data := data[a := data[a].(completed := true)];
      earned := earned + [a];
      assert View() == Mark(table, old(View()), a);
      OpenShrinks(table, old(View()), View(), a);
      HandleRequiresAchievement(a);
      if table.achievements[a].realmFirst {
        realm.completed := realm.completed + {a};
      }
    }

    method HandleRequiresAchievement(a: Id)
      requires Valid()
      modifies this, realm
      ensures Valid() && View() == Requiring(table, old(View()), a, 0)
      decreases |Open(table, View())|, 2
    {
      for k := 0 to |table.linking|
        invariant Valid() && Done(old(View())) <= Done(View())
        invariant Requiring(table, View(), a, k) == Requiring(table, old(View()), a, 0)
      {
        var c := table.criteria[table.linking[k]];
        if c.referred in table.achievements && c.rule == CompleteAchievement(a) {
          OpenGrows(table, old(View()), View());
          Met(table.linking[k]);
        }
      }
    }

    /** The part of a handler that follows a matching criterion. */
    method Met(c: CriterionId)
      requires Valid() && c in table.criteria && table.criteria[c].referred in table.achievements
      modifies this, realm
      ensures Valid() && View() == Visit(table, old(View()), c)
      decreases |Open(table, View())|, 1
    {
      var a := table.criteria[c].referred;
      GetAchievementData(a);
      if data[a].completed { return; }
      Count(a, c);
      var can := CanCompleteAchievement(a);
      if can {
        EventAchievementEarned(a);
      }
    }

    method HandleKillCreature(creature: nat)
      requires Valid()
      modifies this, realm
      ensures Valid() && View() == Killing(table, old(View()), creature, 0)
    {
      hide CanComplete, Visit, Earn, Done;
      for k := 0 to |table.killing|
        invariant Valid()
        invariant Killing(table, View(), creature, k) == Killing(table, old(View()), creature, 0)
      {
        var c := table.criteria[table.killing[k]];
        if c.referred in table.achievements && c.rule == KillCreature(creature) {
          Met(table.killing[k]);
        }
      }
    }

    method HandleDeath()
      requires Valid()
      modifies `data
      ensures Valid() && View() == Die(table, old(View()))
    {
      hide Reset, Die, Wf;
      ghost var s := View();
      var rest := data.Keys;
      while rest != {}
        invariant rest <= data.Keys == s.player.data.Keys && Valid()
        invariant forall a :: a in rest ==> data[a] == s.player.data[a]
        invariant forall a :: a in data && a !in rest ==> data[a] == Reset(table, s, a)
        decreases |rest|
      {
        var a :| a in rest;
        rest := rest - {a};
        ResetLocal(table, s, View(), a);
        ResetFirst(a);
      }
      DieIs(s, data);
    }

    lemma DieIs(s: Session, data: map<Id, Progress>)
      requires Wf(table, s) && data.Keys == s.player.data.Keys
      requires forall a :: a in data ==> data[a] == Reset(table, s, a)
      ensures s.(player := s.player.(data := data)) == Die(table, s)
    {
      hide Reset;
      assert data == Die(table, s).player.data;
    }

    method ResetFirst(a: Id)
      requires Valid() && a in data
      modifies `data
      ensures Valid() && data == old(data)[a := Reset(table, old(View()), a)]
    {
      if data[a].completed { return; }
      var criteria := table.achievements[a].criteria;
      for i := 0 to |criteria|
        invariant data == old(data)
        invariant forall j :: 0 <= j < i ==> !Mortal(table, View(), a, j)
      {
        if data[a].counters[i] != 0 && table.criteria[criteria[i]].noDeath {
          assert Mortal(table, View(), a, i) && i == FirstMortal(table, View(), a, 0);
          data := data[a := data[a].(counters := data[a].counters[i := 0])];
          return;
        }
      }
    }
  }
}
