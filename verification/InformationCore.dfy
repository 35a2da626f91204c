/** The realm map, the set of sockets and what each socket registered, changed in place. */
module RealmObjects {
  import opened Wrappers
  import opened Realms

  class InformationCore {
    var realms: map<RealmId, Realm>
    var sockets: set<SocketId>
    var links: map<SocketId, Link>
    var realmHigh: RealmId
    const usePings: bool

    ghost function View(): Core
      reads this
    {
      Core(realms, sockets, links, realmHigh, usePings)
    }

    constructor (usePings: bool)
      ensures Inv(View()) && View() == Run(usePings, [])
    {
      realms, sockets, links, realmHigh := map[], {}, map[], 0;
      this.usePings := usePings;
    }

    method GetRealmIdByName(name: string) returns (id: Option<RealmId>)
      ensures id == Named(realms, name, 0, realmHigh)
    {
      var i := 0;
      while i <= realmHigh
        invariant i <= realmHigh + 1 && Named(realms, name, 0, realmHigh) == Named(realms, name, i, realmHigh)
        decreases realmHigh + 1 - i
      {
        if i in realms && realms[i].name == name { return Some(i); }
        i := i + 1;
      }
      id := None;
    }

    method HandleRegister(s: SocketId, name: string) returns (id: RealmId)
      requires Inv(View()) && Live(View(), s)
      modifies this
      ensures Inv(View()) && View() == Step(old(View()), Register(s, name)) && id == realmHigh
    {
      StillInv(View(), s, name);
      hide Inv, Named, Step;
      var found := GetRealmIdByName(name);
      if found.Some? {
        realms := realms - {found.value};
      }
      realmHigh := realmHigh + 1;
      id := realmHigh;
      realms := realms[id := Realm(name, true, Some(s))];
      links := links[s := links[s].(ids := links[s].ids + {id})];
    }

    lemma StillInv(c: Core, s: SocketId, name: string)
      requires Inv(c)
      ensures Inv(RegisterRealm(c, s, name)) && Step(c, Register(s, name)) == RegisterRealm(c, s, name)
    {
      StepKeeps(c, Register(s, name));
    }

    method SetRealmOffline(id: RealmId, s: SocketId)
      modifies `realms
      ensures realms.Keys == old(realms).Keys
      ensures id in realms ==> realms[id].name == old(realms)[id].name && realms[id].socket != Some(s)
      ensures id in realms && old(realms)[id].socket == Some(s) ==> !realms[id].online && realms[id].socket == None
      ensures forall o :: o in realms && (o != id || old(realms)[o].socket != Some(s)) ==> realms[o] == old(realms)[o]
    {
      if id in realms && realms[id].socket == Some(s) {
        realms := realms[id := realms[id].(online := false, socket := None)];
      }
    }

    /** Takes a socket's realms offline, id by id. */
    method SetAllOffline(s: SocketId)
      requires s in links
      modifies `realms
      ensures realms == TakeOffline(old(View()), {s})
    {
      ghost var before := realms;
      var rest := links[s].ids;
      while rest != {}
        invariant rest <= links[s].ids && realms.Keys == before.Keys
        invariant forall id :: id in before ==>
          realms[id] == if before[id].socket == Some(s) && id in links[s].ids && id !in rest
                        then before[id].(online := false, socket := None) else before[id]
        decreases |rest|
      {
        var id :| id in rest;
        rest := rest - {id};
        SetRealmOffline(id, s);
      }
    }

    /** One socket is taken off: its realms go offline and it leaves the set. */
    method RemoveSocket(s: SocketId)
      requires s in links
      modifies this
      ensures View() == Drop(old(View()), {s})
    {
      SetAllOffline(s);
      sockets := sockets - {s};
      links := links[s := links[s].(removed := true)];
    }

    method OnConnect(s: SocketId, allowed: bool, now: nat)
      requires Inv(View())
      modifies this
      ensures Inv(View()) && View() == Step(old(View()), Connect(s, allowed, now))
    {
      StepKeeps(View(), Connect(s, allowed, now));
      hide Inv;
      if s in links { return; }
      links := links[s := Link(true, now, {})];
      if !allowed { return; }
      sockets := sockets + {s};
      links := links[s := links[s].(removed := false)];
    }

    method OnDisconnect(s: SocketId)
      requires Inv(View())
      modifies this
      ensures Inv(View()) && View() == Step(old(View()), Disconnect(s))
    {
      StepKeeps(View(), Disconnect(s));
      hide Inv, Drop;
      if s in links && !links[s].removed { RemoveSocket(s); }
    }

    method TimeoutSockets(now: nat)
      requires Inv(View())
      modifies this
      ensures Inv(View()) && View() == Step(old(View()), Timeout(now))
    {
      StepKeeps(View(), Timeout(now));
      LiveLinks(View());
      hide Inv, Drop;
      if !usePings { return; }
      RemoveStale(now);
    }

    /** The loop over the sockets. */
    method RemoveStale(now: nat)
      requires forall s :: s in sockets ==> s in links
      modifies this
      ensures View() == Drop(old(View()), Stale(old(View()), now))
    {
      ghost var before, gone := View(), {};
      var rest := sockets;
      DropNothing(before);
      hide Drop, Silent;
      while rest != {}
        invariant rest <= before.sockets
        invariant View() == Drop(before, gone) && gone == Stale(before, now) - rest
        decreases |rest|
      {
        var s :| s in rest;
        rest := rest - {s};
        DropMore(before, gone, s);
        if !links[s].removed && Silent(links[s], now) {
          RemoveSocket(s);
          gone := gone + {s};
        }
      }
      assert gone == Stale(before, now);
    }

    lemma LiveLinks(c: Core)
      requires Inv(c)
      ensures forall s :: s in c.sockets ==> s in c.links
    {
    }

    lemma DropNothing(c: Core)
      ensures Drop(c, {}) == c
    {
      assert TakeOffline(c, {}) == c.realms;
    }

    /** Dropping sockets one by one comes to dropping them together. */
    lemma DropMore(c: Core, gone: set<SocketId>, s: SocketId)
      requires s !in gone && s in c.links
      ensures s in Drop(c, gone).links && Drop(c, gone).links[s] == c.links[s]
      ensures Drop(Drop(c, gone), {s}) == Drop(c, gone + {s})
    {
      var a, b := Drop(Drop(c, gone), {s}), Drop(c, gone + {s});
      assert a.realms == b.realms;
      assert a.links == b.links;
    }
  }
}
