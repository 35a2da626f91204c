/** Both ends of the encrypted link. `End` is the state of one socket; the functions on it say what
    the two socket classes do, and `LinkSocket` does it by updating fields. */
module LogonEnds {
  import opened LogonLink

  /** One socket; `handled` are the packets given to HandlePacket so far. */
  datatype End = End(rx: Rx, tx: Tx, authenticated: nat, dropped: bool, handled: seq<Packet>)

  const FreshEnd := End(FreshRx, FreshTx, 0, false, [])

  /** The server's handlers on the sending half and the gate: the challenge is answered with a
      32-bit result, encrypted from the start of the new keystream; before it succeeds any other
      packet disconnects. */
  function ServerHandle(c: Cipher, secret: seq<Byte>, e: End, p: Packet): End {
    var logged := e.(handled := e.handled + [p]);
    if e.authenticated == 0 && p.opcode != RCMSG_AUTH_CHALLENGE then logged.(dropped := true)
    else if p.opcode == RCMSG_AUTH_CHALLENGE then
      var result := if ReadKey(p.body) == secret then 1 else 0;
      logged.(tx := SendPacket(c, Tx(ReadKey(p.body), 0, e.tx.out, e.tx.sent), true,
                               Packet(RSMSG_AUTH_RESPONSE, Le32(result))),
              authenticated := result)
    else logged
  }

  function ClientHandle(e: End, p: Packet): End {
    var logged := e.(handled := e.handled + [p]);
    if p.opcode == RSMSG_AUTH_RESPONSE then
      logged.(authenticated := if |p.body| >= 1 && p.body[0] == 1 then 1 else AUTH_FAILED)
    else logged
  }

  function Handle(c: Cipher, secret: seq<Byte>, role: Role, e: End, p: Packet): End {
    if role.Server? then ServerHandle(c, secret, e, p) else ClientHandle(e, p)
  }

  function HandleAll(c: Cipher, secret: seq<Byte>, role: Role, e: End, ps: seq<Packet>): End
    decreases |ps|
  {
    if ps == [] then e else HandleAll(c, secret, role, Handle(c, secret, role, e, ps[0]), ps[1..])
  }

  /** OnRead with everything its packets' handlers do. */
  function Settle(c: Cipher, secret: seq<Byte>, role: Role, e: End): End {
    var r := OnRead(c, role, e.rx);
    HandleAll(c, secret, role, e.(rx := r.rx), r.packets)
  }

  /** Bytes arrive at a socket, and OnRead runs. */
  function Receive(c: Cipher, secret: seq<Byte>, role: Role, e: End, bytes: seq<Byte>): End {
    Settle(c, secret, role, e.(rx := Feed(e.rx, bytes)))
  }

  /** SendChallenge: both engines are set up, then the key goes out in the clear. */
  function SendChallenge(c: Cipher, e: End, key: seq<Byte>): End {
    e.(rx := e.rx.(crypto := true, key := key, off := 0),
       tx := SendPacket(c, Tx(key, 0, e.tx.out, e.tx.sent), false, Packet(RCMSG_AUTH_CHALLENGE, key)))
  }

  datatype Link = Link(client: End, server: End)

  datatype Event =
    | Challenge
    | ClientSend(p: Packet)
    | ServerSend(p: Packet)
    | ToServer(n: nat)
    | ToClient(n: nat)

  function Min(a: nat, b: nat): nat { if a < b then a else b }

  /** The cluster server opens with the challenge and is the only sender of that opcode; the
      login server speaks only from inside its handlers, so after the challenge. An event whose
      caller would not make it changes nothing. Up to n of the bytes in flight arrive at once. */
  function Step(c: Cipher, secret: seq<Byte>, key: seq<Byte>, l: Link, ev: Event): Link {
    match ev
    case Challenge =>
      if l.client.rx.crypto then l else l.(client := SendChallenge(c, l.client, key))
    case ClientSend(p) =>
      if l.client.rx.crypto && Sendable(p) && p.opcode != RCMSG_AUTH_CHALLENGE
      then l.(client := l.client.(tx := SendPacket(c, l.client.tx, true, p))) else l
    case ServerSend(p) =>
      if l.server.rx.crypto && Sendable(p)
      then l.(server := l.server.(tx := SendPacket(c, l.server.tx, true, p))) else l
    case ToServer(n) =>
      var k := Min(n, |l.client.tx.out|);
      Link(l.client.(tx := l.client.tx.(out := l.client.tx.out[k..])),
           Receive(c, secret, Server, l.server, l.client.tx.out[..k]))
    case ToClient(n) =>
      var k := Min(n, |l.server.tx.out|);
      Link(Receive(c, secret, Client, l.client, l.server.tx.out[..k]),
           l.server.(tx := l.server.tx.(out := l.server.tx.out[k..])))
  }

  function Run(c: Cipher, secret: seq<Byte>, key: seq<Byte>, evs: seq<Event>): Link {
    if evs == [] then Link(FreshEnd, FreshEnd)
    else Step(c, secret, key, Run(c, secret, key, evs[..|evs| - 1]), evs[|evs| - 1])
  }

  /** The first packet, and only the first, is the challenge carrying the key. */
  ghost predicate ChallengeFirst(key: seq<Byte>, sent: seq<Packet>) {
    && (|sent| > 0 ==> sent[0] == Packet(RCMSG_AUTH_CHALLENGE, key))
    && forall i :: 0 < i < |sent| ==> sent[i].opcode != RCMSG_AUTH_CHALLENGE
  }

  /** Once it has read what is in flight, the receiver has handled everything sent and its engine
      stands where the sender's does. */
  ghost predicate CaughtUp(c: Cipher, role: Role, rx: Rx, handled: seq<Packet>, tx: Tx, crypto: bool) {
    AllRead(OnRead(c, role, Feed(rx, tx.out)), handled, tx, crypto)
  }

  ghost predicate AllRead(d: Reading, handled: seq<Packet>, tx: Tx, crypto: bool) {
    && Quiet(d.rx) && handled + d.packets == tx.sent && d.rx.crypto == crypto
    && (crypto ==> d.rx.key == tx.key && d.rx.off == tx.off)
  }

  lemma AllReadThen(first: Reading, rest: Reading, handled: seq<Packet>, tx: Tx, crypto: bool, out: seq<Byte>)
    requires AllRead(Then(first, rest), handled, tx, crypto)
    ensures AllRead(rest, handled + first.packets, tx.(out := out), crypto)
    ensures handled + first.packets <= tx.sent
  {
    assert handled + first.packets + rest.packets == handled + (first.packets + rest.packets);
  }

  /** Cluster server to login server. */
  ghost predicate Upward(c: Cipher, key: seq<Byte>, client: End, rx: Rx, handled: seq<Packet>) {
    && ChallengeFirst(key, client.tx.sent)
    && (client.rx.crypto <==> |client.tx.sent| > 0)
    && (client.rx.crypto ==> client.tx.key == key && client.rx.key == key)
    && CaughtUp(c, Server, rx, handled, client.tx, client.rx.crypto)
    && (rx.crypto <==> |handled| > 0)
  }

  /** Login server to cluster server: silence before the challenge is handled. */
  ghost predicate Downward(c: Cipher, key: seq<Byte>, client: End, tx: Tx, answered: bool) {
    if answered then
      tx.key == key && CaughtUp(c, Client, client.rx, client.handled, tx, true)
    else
      && tx.out == [] && tx.sent == [] && client.handled == [] && Quiet(client.rx)
      && (client.rx.crypto ==> client.rx.off == 0)
  }

  ghost predicate Inv(c: Cipher, key: seq<Byte>, l: Link) {
    && Upward(c, key, l.client, l.server.rx, l.server.handled)
    && Downward(c, key, l.client, l.server.tx, l.server.rx.crypto)
    && Settled(l.server.rx) && Settled(l.client.rx)
  }

  /** Handling touches the receiving half only through Rekey, and the sending half only when a
      challenge is among the packets. */
  lemma {:induction false} HandleAllLogs(c: Cipher, secret: seq<Byte>, role: Role, e: End, ps: seq<Packet>)
    ensures var r := HandleAll(c, secret, role, e, ps); r.rx == e.rx && r.handled == e.handled + ps
    ensures (role.Client? || forall i :: 0 <= i < |ps| ==> ps[i].opcode != RCMSG_AUTH_CHALLENGE)
            ==> HandleAll(c, secret, role, e, ps).tx == e.tx
    decreases |ps|
  {
    if ps != [] {
      HandleAllLogs(c, secret, role, Handle(c, secret, role, e, ps[0]), ps[1..]);
      assert e.handled + [ps[0]] + ps[1..] == e.handled + ps;
    }
  }

  /** Sending one more packet keeps a caught-up pair caught up. */
  lemma SendKeeps(c: Cipher, role: Role, rx: Rx, handled: seq<Packet>, tx: Tx, crypto: bool, p: Packet)
    requires Sendable(p) && CaughtUp(c, role, rx, handled, tx, crypto)
    ensures var d := OnRead(c, role, Feed(rx, SendPacket(c, tx, crypto, p).out));
            && handled + d.packets == tx.sent + [p]
            && d.rx == Rekey(role, Advance(OnRead(c, role, Feed(rx, tx.out)).rx, p), p)
  {
    var d := OnRead(c, role, Feed(rx, tx.out));
    OneMore(c, role, rx, tx.out, p);
    assert Wire(c, d.rx.crypto, d.rx.key, d.rx.off, p) == Wire(c, crypto, tx.key, tx.off, p);
    assert handled + (d.packets + [p]) == tx.sent + [p];
  }

  lemma ReadPart(c: Cipher, role: Role, rx: Rx, handled: seq<Packet>, tx: Tx, crypto: bool, a: seq<Byte>, b: seq<Byte>)
    requires tx.out == a + b && CaughtUp(c, role, rx, handled, tx, crypto)
    ensures var r := OnRead(c, role, Feed(rx, a));
            && CaughtUp(c, role, r.rx, handled + r.packets, tx.(out := b), crypto)
            && handled + r.packets <= tx.sent
  {
    ResumeFed(c, role, rx, a, b, tx.out);
    var r := OnRead(c, role, Feed(rx, a));
    AllReadThen(r, OnRead(c, role, Feed(r.rx, b)), handled, tx, crypto, b);
  }

  /** Reading part of what is in flight keeps a caught-up pair caught up. */
  lemma ReadKeeps(c: Cipher, role: Role, rx: Rx, handled: seq<Packet>, tx: Tx, crypto: bool, k: nat)
    requires k <= |tx.out| && CaughtUp(c, role, rx, handled, tx, crypto)
    ensures var r := OnRead(c, role, Feed(rx, tx.out[..k]));
            && CaughtUp(c, role, r.rx, handled + r.packets, tx.(out := tx.out[k..]), crypto)
            && handled + r.packets <= tx.sent
  {
    assert tx.out == tx.out[..k] + tx.out[k..];
    ReadPart(c, role, rx, handled, tx, crypto, tx.out[..k], tx.out[k..]);
  }

  lemma ReadNothing(c: Cipher, role: Role, rx: Rx)
    requires Quiet(rx)
    ensures OnRead(c, role, Feed(rx, [])) == Reading(rx, [])
  {
    assert Feed(rx, []) == rx;
  }

  lemma ChallengeKeeps(c: Cipher, key: seq<Byte>, l: Link)
    requires |key| == KEY_SIZE && Inv(c, key, l) && !l.client.rx.crypto
    ensures Inv(c, key, l.(client := SendChallenge(c, l.client, key)))
  {
    var p := Packet(RCMSG_AUTH_CHALLENGE, key);
    assert ReadKey(key) == key;
    SendKeeps(c, Server, l.server.rx, l.server.handled, l.client.tx, false, p);
    var client := SendChallenge(c, l.client, key);
    assert client.tx.out == SendPacket(c, l.client.tx, false, p).out;
  }

  lemma ClientSendKeeps(c: Cipher, key: seq<Byte>, l: Link, p: Packet)
    requires Inv(c, key, l) && l.client.rx.crypto && Sendable(p) && p.opcode != RCMSG_AUTH_CHALLENGE
    ensures Inv(c, key, l.(client := l.client.(tx := SendPacket(c, l.client.tx, true, p))))
  {
    hide OnRead, Wire, Settled;
    SendKeeps(c, Server, l.server.rx, l.server.handled, l.client.tx, true, p);
  }

  lemma ServerSendKeeps(c: Cipher, key: seq<Byte>, client: End, tx: Tx, p: Packet)
    requires Sendable(p) && tx.key == key && CaughtUp(c, Client, client.rx, client.handled, tx, true)
    ensures Downward(c, key, client, SendPacket(c, tx, true, p), true)
  {
    SendKeeps(c, Client, client.rx, client.handled, tx, true, p);
  }

  /** What the server says while handling `ps`: the answer to the challenge, if it is among them. */
  lemma ServerAnswers(c: Cipher, secret: seq<Byte>, key: seq<Byte>, client: End, e: End, ps: seq<Packet>)
    requires |key| == KEY_SIZE && ChallengeFirst(key, e.handled + ps)
    requires |e.handled + ps| > 0 ==> client.rx.crypto && client.rx.key == key
    requires Downward(c, key, client, e.tx, |e.handled| > 0)
    ensures Downward(c, key, client, HandleAll(c, secret, Server, e, ps).tx, |e.handled + ps| > 0)
  {
    if |e.handled| > 0 {
      forall i | 0 <= i < |ps| ensures ps[i].opcode != RCMSG_AUTH_CHALLENGE {
        assert ps[i] == (e.handled + ps)[|e.handled| + i];
      }
      HandleAllLogs(c, secret, Server, e, ps);
    } else if |ps| > 0 {
      assert ps[0] == (e.handled + ps)[0] && ReadKey(key) == key;
      forall i | 0 <= i < |ps[1..]| ensures ps[1..][i].opcode != RCMSG_AUTH_CHALLENGE {
        assert ps[1..][i] == (e.handled + ps)[i + 1];
      }
      HandleAllLogs(c, secret, Server, ServerHandle(c, secret, e, ps[0]), ps[1..]);
      ReadNothing(c, Client, client.rx);
      var reply := Packet(RSMSG_AUTH_RESPONSE, Le32(if key == secret then 1 else 0));
      ServerSendKeeps(c, key, client, Tx(key, 0, e.tx.out, e.tx.sent), reply);
    }
  }

  lemma ToServerKeeps(c: Cipher, secret: seq<Byte>, key: seq<Byte>, l: Link, n: nat)
    requires |key| == KEY_SIZE && Inv(c, key, l)
    ensures Inv(c, key, Step(c, secret, key, l, ToServer(n)))
  {
    hide OnRead, HandleAll, Process, Rekey, ReadKey;
    var k := Min(n, |l.client.tx.out|);
    var r := OnRead(c, Server, Feed(l.server.rx, l.client.tx.out[..k]));
    ReadKeeps(c, Server, l.server.rx, l.server.handled, l.client.tx, l.client.rx.crypto, k);
    HandleAllLogs(c, secret, Server, l.server.(rx := r.rx), r.packets);
    ServerAnswers(c, secret, key, l.client, l.server.(rx := r.rx), r.packets);
    ReadSettles(c, Server, Feed(l.server.rx, l.client.tx.out[..k]));
    CryptoAfter(c, Feed(l.server.rx, l.client.tx.out[..k]), l.server.handled);
  }

  lemma TurnCrypto(c: Cipher, rx: Rx)
    ensures match OneTurn(c, Server, rx)
            case Return(last) => last.crypto == rx.crypto
            case Handled(p, next) => next.crypto == (rx.crypto || p.opcode == RCMSG_AUTH_CHALLENGE) && |next.buf| < |rx.buf|
  {
    hide Process, Swap32, FromLe16, FromLe32;
  }

  /** The server encrypts exactly from its first packet on, if that one is the challenge. */
  lemma {:induction false} CryptoAfter(c: Cipher, rx: Rx, handled: seq<Packet>)
    requires rx.crypto <==> |handled| > 0
    requires var all := handled + OnRead(c, Server, rx).packets; |all| > 0 ==> all[0].opcode == RCMSG_AUTH_CHALLENGE
    ensures OnRead(c, Server, rx).rx.crypto <==> |handled + OnRead(c, Server, rx).packets| > 0
    decreases |rx.buf|
  {
    TurnCrypto(c, rx);
    hide OneTurn;
    match OneTurn(c, Server, rx)
    case Return(last) =>
    case Handled(p, next) =>
      var later := OnRead(c, Server, next);
      assert handled + ([p] + later.packets) == handled + [p] + later.packets;
      CryptoAfter(c, next, handled + [p]);
  }

  lemma ToClientKeeps(c: Cipher, secret: seq<Byte>, key: seq<Byte>, l: Link, n: nat)
    requires Inv(c, key, l)
    ensures Inv(c, key, Step(c, secret, key, l, ToClient(n)))
  {
    hide OnRead, HandleAll, Process, Rekey, ReadKey;
    var k := Min(n, |l.server.tx.out|);
    var r := OnRead(c, Client, Feed(l.client.rx, l.server.tx.out[..k]));
    HandleAllLogs(c, secret, Client, l.client.(rx := r.rx), r.packets);
    ReadSettles(c, Client, Feed(l.client.rx, l.server.tx.out[..k]));
    ClientCrypto(c, Feed(l.client.rx, l.server.tx.out[..k]));
    if l.server.rx.crypto {
      ReadKeeps(c, Client, l.client.rx, l.client.handled, l.server.tx, true, k);
    } else {
      ReadNothing(c, Client, l.client.rx);
      assert l.server.tx.out[..k] == [];
    }
  }

  /** Reading never changes whether, or under which key, the client decrypts. */
  lemma {:induction false} ClientCrypto(c: Cipher, rx: Rx)
    ensures var r := OnRead(c, Client, rx).rx; r.crypto == rx.crypto && r.key == rx.key
    decreases |rx.buf|
  {
    match OneTurn(c, Client, rx)
    case Return(last) =>
    case Handled(p, next) => ClientCrypto(c, next);
  }

  lemma StepKeeps(c: Cipher, secret: seq<Byte>, key: seq<Byte>, l: Link, ev: Event)
    requires |key| == KEY_SIZE && Inv(c, key, l)
    ensures Inv(c, key, Step(c, secret, key, l, ev))
  {
    match ev
    case Challenge => if !l.client.rx.crypto { ChallengeKeeps(c, key, l); }
    case ClientSend(p) =>
      if l.client.rx.crypto && Sendable(p) && p.opcode != RCMSG_AUTH_CHALLENGE { ClientSendKeeps(c, key, l, p); }
    case ServerSend(p) =>
      if l.server.rx.crypto && Sendable(p) { ServerSendKeeps(c, key, l.client, l.server.tx, p); }
    case ToServer(n) => ToServerKeeps(c, secret, key, l, n);
    case ToClient(n) => ToClientKeeps(c, secret, key, l, n);
  }

  lemma {:induction false} RunKeeps(c: Cipher, secret: seq<Byte>, key: seq<Byte>, evs: seq<Event>)
    requires |key| == KEY_SIZE
    ensures Inv(c, key, Run(c, secret, key, evs))
    decreases |evs|
  {
    if evs == [] {
      ReadNothing(c, Server, FreshRx);
    } else {
      RunKeeps(c, secret, key, evs[..|evs| - 1]);
      StepKeeps(c, secret, key, Run(c, secret, key, evs[..|evs| - 1]), evs[|evs| - 1]);
    }
  }

  /** A receiver has handled a prefix, in order, of what was sent; and when nothing is in flight it
      has handled all of it and its keystream is aligned with the sender's. */
  ghost predicate Delivered(tx: Tx, crypto: bool, rx: Rx, handled: seq<Packet>) {
    && handled <= tx.sent
    && (tx.out == [] ==> handled == tx.sent && (crypto ==> rx.crypto && rx.key == tx.key && rx.off == tx.off))
  }

  /** Main theorem: in every run both directions deliver, and when nothing is in flight to it the
      server encrypts exactly if the client does. */
  lemma LinkDelivers(c: Cipher, secret: seq<Byte>, key: seq<Byte>, evs: seq<Event>)
    requires |key| == KEY_SIZE
    ensures var l := Run(c, secret, key, evs);
            && Delivered(l.client.tx, l.client.rx.crypto, l.server.rx, l.server.handled)
            && Delivered(l.server.tx, l.server.rx.crypto, l.client.rx, l.client.handled)
            && (l.client.tx.out == [] ==> l.server.rx.crypto == l.client.rx.crypto)
  {
    RunKeeps(c, secret, key, evs);
    var l := Run(c, secret, key, evs);
    ReadSettles(c, Server, l.server.rx);
    ReadSettles(c, Client, l.client.rx);
    assert Feed(l.server.rx, []) == l.server.rx && Feed(l.client.rx, []) == l.client.rx;
  }

  // ---- The authentication gate -----------------------------------------------------------

  /** What the login server's gate has done after handling packets that start with the challenge. */
  ghost predicate Gate(secret: seq<Byte>, key: seq<Byte>, e: End) {
    && e.authenticated == (if |e.handled| > 0 && key == secret then 1 else 0)
    && (e.dropped <==> key != secret && |e.handled| > 1)
  }

  lemma {:induction false} GateAfter(c: Cipher, secret: seq<Byte>, key: seq<Byte>, e: End, ps: seq<Packet>)
    requires |key| == KEY_SIZE && ChallengeFirst(key, e.handled + ps) && Gate(secret, key, e)
    ensures Gate(secret, key, HandleAll(c, secret, Server, e, ps))
    decreases |ps|
  {
    if ps != [] {
      assert ps[0] == (e.handled + ps)[|e.handled|] && ReadKey(key) == key;
      assert e.handled + [ps[0]] + ps[1..] == e.handled + ps;
      GateAfter(c, secret, key, ServerHandle(c, secret, e, ps[0]), ps[1..]);
    }
  }

  lemma GateStep(c: Cipher, secret: seq<Byte>, key: seq<Byte>, l: Link, n: nat)
    requires |key| == KEY_SIZE && Inv(c, key, l) && Gate(secret, key, l.server)
    ensures Gate(secret, key, Step(c, secret, key, l, ToServer(n)).server)
  {
    hide OnRead, HandleAll, Process, Rekey, ReadKey;
    var k := Min(n, |l.client.tx.out|);
    var r := OnRead(c, Server, Feed(l.server.rx, l.client.tx.out[..k]));
    ReadKeeps(c, Server, l.server.rx, l.server.handled, l.client.tx, l.client.rx.crypto, k);
    GateAfter(c, secret, key, l.server.(rx := r.rx), r.packets);
  }

  /** The login server disconnects a peer exactly when that peer's key is wrong and it sent
      something after its challenge; a peer with the right key is never dropped. */
  lemma {:induction false} DroppedIffWrongKey(c: Cipher, secret: seq<Byte>, key: seq<Byte>, evs: seq<Event>)
    requires |key| == KEY_SIZE
    ensures Gate(secret, key, Run(c, secret, key, evs).server)
    decreases |evs|
  {
    if evs != [] {
      var (before, last) := (evs[..|evs| - 1], evs[|evs| - 1]);
      DroppedIffWrongKey(c, secret, key, before);
      if last.ToServer? {
        RunKeeps(c, secret, key, before);
        GateStep(c, secret, key, Run(c, secret, key, before), last.n);
      }
    }
  }

  /** How the server answers a challenge: with the result of comparing the 20 bytes it takes for the
      key, zeros if there are fewer, in the low byte of a 32-bit number. */
  lemma AnswerIs(c: Cipher, secret: seq<Byte>, e: End, p: Packet)
    requires p.opcode == 9
    ensures var r := ServerHandle(c, secret, e, p);
            var key := if |p.body| >= 20 then p.body[..20] else seq(20, _ => 0);
            && r.authenticated == (if key == secret then 1 else 0)
            && r.tx.key == key && r.tx.off == 10 && r.dropped == e.dropped
            && r.tx.sent == e.tx.sent + [Packet(10, [r.authenticated, 0, 0, 0])]
  {
    hide Wire;
  }

  /** The client's verdict, as long as one answer only was given to it: the answer's first byte. */
  ghost predicate Learned(e: End) {
    (forall i :: 0 < i < |e.handled| ==> e.handled[i].opcode != 10) ==>
      (if e.handled == [] || e.handled[0].opcode != 10 then e.authenticated == 0
       else e.authenticated == if |e.handled[0].body| >= 1 && e.handled[0].body[0] == 1 then 1 else 0xFFFF_FFFF)
  }

  lemma {:induction false} LearnedAll(c: Cipher, secret: seq<Byte>, e: End, ps: seq<Packet>)
    requires Learned(e)
    ensures Learned(HandleAll(c, secret, Client, e, ps))
    decreases |ps|
  {
    if ps != [] {
      var next := ClientHandle(e, ps[0]);
      assert next.handled[..|e.handled|] == e.handled;
      if forall i :: 0 < i < |next.handled| ==> next.handled[i].opcode != 10 {
        forall i | 0 < i < |e.handled| ensures e.handled[i].opcode != 10 { assert next.handled[i] == e.handled[i]; }
        assert next.handled[|e.handled|] == ps[0];
      }
      LearnedAll(c, secret, next, ps[1..]);
    }
  }

  function Answer(key: seq<Byte>, secret: seq<Byte>): Packet { Packet(10, [if key == secret then 1 else 0, 0, 0, 0]) }

  /** The server's first packet is its answer, sent when it has handled the challenge. */
  ghost predicate Answered(key: seq<Byte>, secret: seq<Byte>, sent: seq<Packet>, handled: seq<Packet>) {
    (handled != [] ==> sent != []) && (sent != [] ==> sent[0] == Answer(key, secret))
  }

  lemma AnsweredAll(c: Cipher, secret: seq<Byte>, key: seq<Byte>, e: End, ps: seq<Packet>)
    requires |key| == KEY_SIZE && ChallengeFirst(key, e.handled + ps) && Answered(key, secret, e.tx.sent, e.handled)
    requires e.handled == [] ==> e.tx.sent == []
    ensures var r := HandleAll(c, secret, Server, e, ps); Answered(key, secret, r.tx.sent, r.handled)
  {
    HandleAllLogs(c, secret, Server, e, ps);
    if e.handled != [] {
      forall i | 0 <= i < |ps| ensures ps[i].opcode != RCMSG_AUTH_CHALLENGE {
        assert ps[i] == (e.handled + ps)[|e.handled| + i];
      }
    } else if ps != [] {
      assert ps[0] == (e.handled + ps)[0] && key[..20] == key;
      forall i | 0 <= i < |ps[1..]| ensures ps[1..][i].opcode != RCMSG_AUTH_CHALLENGE {
        assert ps[1..][i] == (e.handled + ps)[i + 1];
      }
      AnswerIs(c, secret, e, ps[0]);
      HandleAllLogs(c, secret, Server, ServerHandle(c, secret, e, ps[0]), ps[1..]);
    }
  }

  ghost predicate Verdicts(secret: seq<Byte>, key: seq<Byte>, l: Link) {
    && Learned(l.client) && Answered(key, secret, l.server.tx.sent, l.server.handled)
    && (l.server.handled == [] ==> l.server.tx.sent == [])
  }

  lemma VerdictsStep(c: Cipher, secret: seq<Byte>, key: seq<Byte>, l: Link, ev: Event)
    requires |key| == KEY_SIZE && Inv(c, key, l) && Verdicts(secret, key, l)
    ensures Verdicts(secret, key, Step(c, secret, key, l, ev))
  {
    hide OnRead, HandleAll, Process, Rekey, ReadKey, Wire, Learned;
    match ev
    case Challenge => SameVerdict(l.client, Step(c, secret, key, l, ev).client);
    case ClientSend(p) => SameVerdict(l.client, Step(c, secret, key, l, ev).client);
    case ServerSend(p) =>
    case ToServer(n) =>
      var k := Min(n, |l.client.tx.out|);
      var r := OnRead(c, Server, Feed(l.server.rx, l.client.tx.out[..k]));
      ReadKeeps(c, Server, l.server.rx, l.server.handled, l.client.tx, l.client.rx.crypto, k);
      AnsweredAll(c, secret, key, l.server.(rx := r.rx), r.packets);
      HandleAllLogs(c, secret, Server, l.server.(rx := r.rx), r.packets);
      SameVerdict(l.client, Step(c, secret, key, l, ev).client);
    case ToClient(n) =>
      var k := Min(n, |l.server.tx.out|);
      var r := OnRead(c, Client, Feed(l.client.rx, l.server.tx.out[..k]));
      SameVerdict(l.client, l.client.(rx := r.rx));
      LearnedAll(c, secret, l.client.(rx := r.rx), r.packets);
  }

  lemma SameVerdict(e: End, f: End)
    requires f.handled == e.handled && f.authenticated == e.authenticated
    ensures Learned(f) == Learned(e)
  {
  }

  lemma {:induction false} VerdictsKept(c: Cipher, secret: seq<Byte>, key: seq<Byte>, evs: seq<Event>)
    requires |key| == KEY_SIZE
    ensures Verdicts(secret, key, Run(c, secret, key, evs))
    decreases |evs|
  {
    if evs != [] {
      VerdictsKept(c, secret, key, evs[..|evs| - 1]);
      RunKeeps(c, secret, key, evs[..|evs| - 1]);
      VerdictsStep(c, secret, key, Run(c, secret, key, evs[..|evs| - 1]), evs[|evs| - 1]);
    }
  }

  /** In every run the first packet the client is given is the answer to its challenge, and unless
      another one carries that opcode it knows from then on whether its key was right. */
  lemma ClientLearns(c: Cipher, secret: seq<Byte>, key: seq<Byte>, evs: seq<Event>)
    requires |key| == KEY_SIZE
    ensures var e := Run(c, secret, key, evs).client;
            && (e.handled != [] ==> e.handled[0] == Packet(10, [if key == secret then 1 else 0, 0, 0, 0]))
            && ((forall i :: 0 < i < |e.handled| ==> e.handled[i].opcode != 10) ==>
                e.authenticated == if e.handled == [] then 0 else if key == secret then 1 else 0xFFFF_FFFF)
  {
    VerdictsKept(c, secret, key, evs);
    LinkDelivers(c, secret, key, evs);
    hide Run;
  }
}
