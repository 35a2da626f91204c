/** Realms register on sockets of the login server; a socket that goes takes its realms offline. */
module Realms {
  import opened Wrappers

  type RealmId = nat
  type SocketId = nat

  datatype Realm = Realm(name: string, online: bool, socket: Option<SocketId>)

  /** A connection; one that is `removed` has been disconnected and is read no more. */
  datatype Link = Link(removed: bool, lastPing: nat, ids: set<RealmId>)

  datatype Core = Core(
    realms: map<RealmId, Realm>, sockets: set<SocketId>, links: map<SocketId, Link>, realmHigh: RealmId, usePings: bool)

  datatype Event =
    | Connect(socket: SocketId, allowed: bool, now: nat)
    | Register(socket: SocketId, name: string)
    | Ping(socket: SocketId, now: nat)
    | Disconnect(socket: SocketId)
    | Timeout(now: nat)

  /** GetRealmIdByName: the first id from `i` on whose realm has the name. */
  function Named(realms: map<RealmId, Realm>, name: string, i: RealmId, high: RealmId): (r: Option<RealmId>)
    ensures r.Some? ==> i <= r.value <= high && r.value in realms && realms[r.value].name == name
    ensures r.None? ==> forall id :: i <= id <= high && id in realms ==> realms[id].name != name
    decreases high + 1 - i
  {
    if i > high then None
    else if i in realms && realms[i].name == name then Some(i)
    else Named(realms, name, i + 1, high)
  }

  predicate Live(c: Core, s: SocketId) { s in c.links && !c.links[s].removed }

  /** HandleRegister: a realm of the name is replaced, and the id is always a new one. */
  function RegisterRealm(c: Core, s: SocketId, name: string): Core {
    if !Live(c, s) then c
    else
      var prior := Named(c.realms, name, 0, c.realmHigh);
      var left := if prior.Some? then c.realms - {prior.value} else c.realms;
      var id := c.realmHigh + 1;
      c.(realms := left[id := Realm(name, true, Some(s))], realmHigh := id,
         links := c.links[s := c.links[s].(ids := c.links[s].ids + {id})])
  }

  /** SetRealmOffline for every id of the sockets in `gone`: only a realm that is still on that
      socket is touched. */
  function TakeOffline(c: Core, gone: set<SocketId>): map<RealmId, Realm> {
    map id | id in c.realms ::
      if c.realms[id].socket.Some? && c.realms[id].socket.value in gone && c.realms[id].socket.value in c.links
         && id in c.links[c.realms[id].socket.value].ids
      then c.realms[id].(online := false, socket := None)
      else c.realms[id]
  }

  function Drop(c: Core, gone: set<SocketId>): Core {
    c.(realms := TakeOffline(c, gone), sockets := c.sockets - gone,
       links := map s | s in c.links :: if s in gone then c.links[s].(removed := true) else c.links[s])
  }

  /** The difference of the two times as 32-bit numbers. */
  predicate Silent(l: Link, now: nat) { (now - l.lastPing) % 0x1_0000_0000 > 60 }

  function Stale(c: Core, now: nat): set<SocketId> {
    set s | s in c.sockets && s in c.links && !c.links[s].removed && Silent(c.links[s], now)
  }

  function Step(c: Core, ev: Event): Core {
    match ev
    case Connect(s, allowed, now) =>
      if s in c.links then c
      else if allowed then c.(sockets := c.sockets + {s}, links := c.links[s := Link(false, now, {})])
      else c.(links := c.links[s := Link(true, now, {})])
    case Register(s, name) => RegisterRealm(c, s, name)
    case Ping(s, now) => if Live(c, s) then c.(links := c.links[s := c.links[s].(lastPing := now)]) else c
    case Disconnect(s) => if Live(c, s) then Drop(c, {s}) else c
    case Timeout(now) => if c.usePings then Drop(c, Stale(c, now)) else c
  }

  function Run(usePings: bool, evs: seq<Event>): Core
    decreases |evs|
  {
    if evs == [] then Core(map[], {}, map[], 0, usePings) else Step(Run(usePings, evs[..|evs| - 1]), evs[|evs| - 1])
  }

  // ---- Invariants ------------------------------------------------------------------------

  ghost predicate NamesUnique(realms: map<RealmId, Realm>) {
    forall i, j :: i in realms && j in realms && realms[i].name == realms[j].name ==> i == j
  }

  /** A realm that is on a socket: the socket is still there and knows the realm's id. */
  ghost predicate Attached(c: Core, id: RealmId)
    requires id in c.realms
  {
    var r := c.realms[id];
    && (r.online <==> r.socket.Some?)
    && (r.socket.Some? ==> r.socket.value in c.sockets && r.socket.value in c.links && id in c.links[r.socket.value].ids)
  }

  ghost predicate Inv(c: Core) {
    && NamesUnique(c.realms)
    && (forall id :: id in c.realms ==> 0 < id <= c.realmHigh && Attached(c, id))
    && (forall s :: s in c.sockets <==> Live(c, s))
    && (forall s, id :: s in c.links && id in c.links[s].ids ==> id <= c.realmHigh)
  }

  lemma DropKeeps(c: Core, gone: set<SocketId>)
    requires Inv(c) && gone <= c.sockets
    ensures var r := Drop(c, gone);
            && Inv(r) && r.realms.Keys == c.realms.Keys && r.realmHigh == c.realmHigh
            && forall id :: id in c.realms ==>
                 r.realms[id].name == c.realms[id].name
                 && (if c.realms[id].socket.Some? && c.realms[id].socket.value in gone
                     then r.realms[id] == c.realms[id].(online := false, socket := None)
                     else r.realms[id] == c.realms[id])
  {
    forall id | id in c.realms ensures Attached(Drop(c, gone), id) { assert Attached(c, id); }
  }

  lemma RegisterKeeps(c: Core, s: SocketId, name: string)
    requires Inv(c) && Live(c, s)
    ensures var (r, id) := (RegisterRealm(c, s, name), c.realmHigh + 1);
            && Inv(r) && r.realmHigh == id && id in r.realms && r.realms[id] == Realm(name, true, Some(s))
            && (forall o :: o in r.realms && o != id ==> o in c.realms && c.realms[o].name != name && r.realms[o] == c.realms[o])
            && (forall o :: o in c.realms && c.realms[o].name != name ==> o in r.realms)
  {
    var r, id := RegisterRealm(c, s, name), c.realmHigh + 1;
    var prior := Named(c.realms, name, 0, c.realmHigh);
    hide Named;
    forall o | o in r.realms && o != id ensures o in c.realms && c.realms[o].name != name && r.realms[o] == c.realms[o] && Attached(r, o) {
      assert Attached(c, o);
    }
  }

  /** Every event keeps the invariant, and no id that was given out before comes to life again. */
  lemma StepKeeps(c: Core, ev: Event)
    requires Inv(c)
    ensures Inv(Step(c, ev)) && c.realmHigh <= Step(c, ev).realmHigh
    ensures forall id :: id in Step(c, ev).realms && id !in c.realms ==> id > c.realmHigh
  {
    match ev {
      case Connect(s, allowed, now) => ConnectKeeps(c, s, allowed, now);
      case Register(s, name) => if Live(c, s) { RegisterKeeps(c, s, name); }
      case Ping(s, now) =>
        if Live(c, s) { forall id | id in c.realms ensures Attached(Step(c, ev), id) { assert Attached(c, id); } }
      case Disconnect(s) => if Live(c, s) { DropKeeps(c, {s}); }
      case Timeout(now) => DropKeeps(c, Stale(c, now));
    }
  }

  lemma ConnectKeeps(c: Core, s: SocketId, allowed: bool, now: nat)
    requires Inv(c)
    ensures Inv(Step(c, Connect(s, allowed, now)))
  {
    forall id | id in c.realms ensures Attached(Step(c, Connect(s, allowed, now)), id) { assert Attached(c, id); }
  }

  /** In every run realm names are unique, no realm points at a socket that is gone, and a realm on
      a socket is among the ids the socket will take offline. */
  lemma {:induction false} RealmsInEveryRun(usePings: bool, evs: seq<Event>)
    ensures Inv(Run(usePings, evs))
    decreases |evs|
  {
    hide Inv;
    if evs != [] {
      RealmsInEveryRun(usePings, evs[..|evs| - 1]);
      StepKeeps(Run(usePings, evs[..|evs| - 1]), evs[|evs| - 1]);
    } else {
      NothingRegistered(usePings);
    }
  }

  lemma NothingRegistered(usePings: bool)
    ensures Inv(Run(usePings, []))
  {
  }

  /** An id that belongs to no realm any more never belongs to one again. */
  lemma {:induction false} IdsNotReused(usePings: bool, evs: seq<Event>, more: seq<Event>, id: RealmId)
    requires id <= Run(usePings, evs).realmHigh && id !in Run(usePings, evs).realms
    ensures id <= Run(usePings, evs + more).realmHigh && id !in Run(usePings, evs + more).realms
    decreases |more|
  {
    hide Inv, Step;
    if more == [] {
      assert evs + more == evs;
    } else {
      var before := evs + more[..|more| - 1];
      assert (evs + more)[..|evs + more| - 1] == before;
      IdsNotReused(usePings, evs, more[..|more| - 1], id);
      RealmsInEveryRun(usePings, before);
      StepKeeps(Run(usePings, before), more[|more| - 1]);
    }
  }

  // ---- Where a realm is ------------------------------------------------------------------

  /** The socket that last registered a realm of the name. */
  function Registrar(usePings: bool, evs: seq<Event>, name: string): Option<SocketId>
    decreases |evs|
  {
    if evs == [] then None
    else
      var front, ev := evs[..|evs| - 1], evs[|evs| - 1];
      if ev.Register? && ev.name == name && Live(Run(usePings, front), ev.socket) then Some(ev.socket)
      else Registrar(usePings, front, name)
  }

  /** The realm `id` is on the socket that registered its name, as long as that is there. */
  ghost predicate OnRegistrar(c: Core, id: RealmId, registrar: Option<SocketId>)
    requires id in c.realms
  {
    registrar.Some? && registrar.value in c.links
    && c.realms[id].socket == if Live(c, registrar.value) then registrar else None
  }

  lemma DropFollows(c: Core, gone: set<SocketId>, id: RealmId, registrar: Option<SocketId>)
    requires Inv(c) && gone <= c.sockets && id in c.realms && OnRegistrar(c, id, registrar)
    ensures id in Drop(c, gone).realms && OnRegistrar(Drop(c, gone), id, registrar)
  {
    DropKeeps(c, gone);
    assert Attached(c, id);
  }

  lemma StepFollows(c: Core, ev: Event, id: RealmId, registrar: Option<SocketId>)
    requires Inv(c) && id in c.realms && id in Step(c, ev).realms && OnRegistrar(c, id, registrar)
    ensures OnRegistrar(Step(c, ev), id, registrar) && Step(c, ev).realms[id].name == c.realms[id].name
  {
    match ev {
      case Connect(s, allowed, now) =>
      case Register(s, name) => if Live(c, s) { RegisterKeeps(c, s, name); }
      case Ping(s, now) =>
      case Disconnect(s) =>
        if Live(c, s) {
          DropFollows(c, {s}, id, registrar);
          DropKeeps(c, {s});
        }
      case Timeout(now) =>
        DropFollows(c, Stale(c, now), id, registrar);
        DropKeeps(c, Stale(c, now));
    }
  }

  /** Main theorem: in every run there is a realm of a name exactly if one was registered, and it is
      online exactly while the socket that registered it last is there; no other socket matters. */
  lemma {:induction false} RealmFollowsRegistrar(usePings: bool, evs: seq<Event>, name: string)
    ensures var (c, registrar) := (Run(usePings, evs), Registrar(usePings, evs, name));
            && (forall id :: id in c.realms && c.realms[id].name == name ==> OnRegistrar(c, id, registrar))
            && (registrar.Some? <==> exists id :: id in c.realms && c.realms[id].name == name)
    decreases |evs|
  {
    hide Step, Inv, OnRegistrar, Live;
    if evs != [] {
      var front, ev := evs[..|evs| - 1], evs[|evs| - 1];
      var c := Run(usePings, front);
      RealmsInEveryRun(usePings, front);
      RealmFollowsRegistrar(usePings, front, name);
      StepNames(c, ev, name, Registrar(usePings, front, name));
    }
  }

  lemma StepNames(c: Core, ev: Event, name: string, registrar: Option<SocketId>)
    requires Inv(c)
    requires forall id :: id in c.realms && c.realms[id].name == name ==> OnRegistrar(c, id, registrar)
    requires registrar.Some? <==> exists id :: id in c.realms && c.realms[id].name == name
    ensures var now := if ev.Register? && ev.name == name && Live(c, ev.socket) then Some(ev.socket) else registrar;
            && (forall id :: id in Step(c, ev).realms && Step(c, ev).realms[id].name == name ==> OnRegistrar(Step(c, ev), id, now))
            && (now.Some? <==> exists id :: id in Step(c, ev).realms && Step(c, ev).realms[id].name == name)
  {
    var r := Step(c, ev);
    if ev.Register? && Live(c, ev.socket) {
      RegisterKeeps(c, ev.socket, ev.name);
      RegisterNames(c, ev.socket, ev.name, name, registrar);
    } else {
      SameKeys(c, ev);
      hide Step;
      forall id | id in r.realms && c.realms[id].name == name ensures OnRegistrar(r, id, registrar) && r.realms[id].name == name {
        StepFollows(c, ev, id, registrar);
      }
    }
  }

  lemma SameKeys(c: Core, ev: Event)
    requires Inv(c) && !(ev.Register? && Live(c, ev.socket))
    ensures Step(c, ev).realms.Keys == c.realms.Keys
    ensures forall id :: id in c.realms ==> Step(c, ev).realms[id].name == c.realms[id].name
  {
    match ev {
      case Connect(_, _, _) =>
      case Register(_, _) =>
      case Ping(_, _) =>
      case Disconnect(s) => if Live(c, s) { DropKeeps(c, {s}); }
      case Timeout(now) => DropKeeps(c, Stale(c, now));
    }
  }

  lemma RegisterNames(c: Core, s: SocketId, registered: string, name: string, registrar: Option<SocketId>)
    requires Inv(c) && Live(c, s)
    requires forall id :: id in c.realms && c.realms[id].name == name ==> OnRegistrar(c, id, registrar)
    requires registrar.Some? <==> exists id :: id in c.realms && c.realms[id].name == name
    ensures var (r, now) := (RegisterRealm(c, s, registered), if registered == name then Some(s) else registrar);
            && (forall id :: id in r.realms && r.realms[id].name == name ==> OnRegistrar(r, id, now))
            && (now.Some? <==> exists id :: id in r.realms && r.realms[id].name == name)
  {
    RegisterKeeps(c, s, registered);
    var r := RegisterRealm(c, s, registered);
    assert forall x :: x in c.links ==> Live(r, x) == Live(c, x);
    hide RegisterRealm, Inv;
    if registered == name {
      assert r.realms[c.realmHigh + 1].name == name;
    }
  }
}
