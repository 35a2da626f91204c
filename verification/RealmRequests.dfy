/** What the single events do to a socket. */
module RealmRequests {
  import opened Wrappers
  import opened Realms

  /** A socket comes in with the time as its last ping, among the sockets exactly if it is allowed. */
  lemma ConnectIs(c: Core, s: SocketId, allowed: bool, now: nat)
    requires Inv(c)
    ensures var r := Step(c, Connect(s, allowed, now));
            && r.realms == c.realms && r.realmHigh == c.realmHigh
            && (s in c.links ==> r == c)
            && (s !in c.links ==>
                && r.links == c.links[s := Link(!allowed, now, {})]
                && forall o :: o in r.sockets <==> o in c.sockets || (allowed && o == s))
  {
  }

  /** A ping counts for a socket that is still there, and for no other. */
  lemma PingIs(c: Core, s: SocketId, now: nat, o: SocketId)
    requires o in c.links
    ensures var r := Step(c, Ping(s, now));
            && r.realms == c.realms && r.sockets == c.sockets && o in r.links
            && r.links[o] == if o == s && !c.links[o].removed then c.links[o].(lastPing := now) else c.links[o]
  {
  }

  /** A disconnection takes that socket off, and no other. */
  lemma DisconnectIs(c: Core, s: SocketId, o: SocketId)
    requires Inv(c) && o in c.links
    ensures var r := Step(c, Disconnect(s));
            && o in r.links && r.links[o].removed == (c.links[o].removed || o == s)
            && (o in r.sockets <==> o in c.sockets && o != s)
  {
  }

  /** A timeout takes off exactly the sockets whose last ping is more than 60 seconds old, by a clock
      of 32 bits, and only if pings are used. */
  lemma TimeoutIs(c: Core, now: nat, s: SocketId)
    requires Inv(c) && s in c.links && now < 0x1_0000_0000 && c.links[s].lastPing < 0x1_0000_0000
    ensures var (r, last) := (Step(c, Timeout(now)), c.links[s].lastPing);
            && s in r.links && r.links[s].lastPing == last && r.links[s].ids == c.links[s].ids
            && (r.links[s].removed <==>
                c.links[s].removed || (c.usePings && (if last <= now then now - last else now + 0x1_0000_0000 - last) > 60))
            && (s in r.sockets <==> !r.links[s].removed)
  {
  }
}
