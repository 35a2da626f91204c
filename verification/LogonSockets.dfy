/** The sockets at both ends of the login link, updating their fields in place; each method is
    tied to the function that says what it does. */
module LogonSockets {
  import opened LogonLink
  import opened LogonEnds
  import L = LogonLink
  import E = LogonEnds

  /** Handling packet by packet, as the loop does, or after reading them all comes to the same. */
  lemma SettleTurn(c: Cipher, secret: seq<Byte>, role: Role, e: End)
    ensures match OneTurn(c, role, e.rx)
            case Return(rx) => Settle(c, secret, role, e) == e.(rx := rx)
            case Handled(p, rx) => Settle(c, secret, role, e) == Settle(c, secret, role, Handle(c, secret, role, e, p).(rx := rx))
  {
    match OneTurn(c, role, e.rx)
    case Return(rx) =>
    case Handled(p, rx) =>
      var later := L.OnRead(c, role, rx);
      assert ([p] + later.packets)[1..] == later.packets;
      assert Handle(c, secret, role, e.(rx := later.rx), p) == Handle(c, secret, role, e, p).(rx := later.rx);
  }

  /** LogonCommServerSocket and LogonCommClientSocket, which differ only in their handlers. */
  class LinkSocket {
    const cipher: Cipher
    const secret: seq<Byte>
    const role: Role

    var readBuffer: seq<Byte>
    var remaining: nat
    var opcode: nat
    var useCrypto: bool
    var recvKey: seq<Byte>
    var recvOff: nat
    var sendKey: seq<Byte>
    var sendOff: nat
    var outgoing: seq<Byte>
    var authenticated: nat
    var dropped: bool
    ghost var sent: seq<Packet>
    ghost var handled: seq<Packet>

    ghost function View(): End
      reads this
    {
      End(Rx(readBuffer, remaining, opcode, useCrypto, recvKey, recvOff),
          Tx(sendKey, sendOff, outgoing, sent), authenticated, dropped, handled)
    }

    constructor (cipher: Cipher, secret: seq<Byte>, role: Role)
      ensures View() == FreshEnd
      ensures this.cipher == cipher && this.secret == secret && this.role == role
    {
      this.cipher, this.secret, this.role := cipher, secret, role;
      readBuffer, remaining, opcode, useCrypto := [], 0, 0, false;
      recvKey, recvOff, sendKey, sendOff := [], 0, [], 0;
      outgoing, authenticated, dropped := [], 0, false;
      sent, handled := [], [];
    }

    /** The receiving engine run over a few bytes. */
    method Decrypt(data: seq<Byte>) returns (plain: seq<Byte>)
      modifies `recvOff
      ensures plain == Process(cipher, recvKey, old(recvOff), data)
      ensures recvOff == old(recvOff) + |data|
    {
      plain := Process(cipher, recvKey, recvOff, data);
      recvOff := recvOff + |data|;
    }

    method SendPacket(p: Packet, noCrypto: bool)
      modifies this
      ensures View() == old(View()).(tx := L.SendPacket(cipher, old(View().tx), useCrypto && !noCrypto, p))
      ensures var n, plain := |p.body|, !(useCrypto && !noCrypto);
              && |outgoing| == |old(outgoing)| + 6 + n && old(outgoing) <= outgoing
              && (p.opcode < 0x1_0000 && n < 0x1_0000_0000 && plain ==>
                  outgoing == old(outgoing) + [p.opcode % 0x100, p.opcode / 0x100, n / 0x100_0000, n / 0x1_0000 % 0x100, n / 0x100 % 0x100, n % 0x100]
                              + p.body)
              && sendOff == old(sendOff) + if plain then 0 else 6 + n
    {
      if p.opcode < 0x1_0000 && |p.body| < 0x1_0000_0000 { HeaderBytes(p); }
      hide Process, Header;
      var header, body := Header(p), p.body;
      if useCrypto && !noCrypto {
        header := Process(cipher, sendKey, sendOff, header);
        sendOff := sendOff + HEADER_SIZE;
        body := Process(cipher, sendKey, sendOff, body);
        sendOff := sendOff + |body|;
      }
      outgoing := outgoing + header;
      if |body| > 0 {
        outgoing := outgoing + body;
      }
      sent := sent + [p];
      PushTwice(old(outgoing), header, body);
    }

    /** Pushing the body after the header, or not at all if it is empty. */
    lemma PushTwice(out: seq<Byte>, header: seq<Byte>, body: seq<Byte>)
      ensures out + header + body == out + (header + body)
      ensures |body| == 0 ==> out + header == out + (header + body)
    {
    }

    method SendChallenge(key: seq<Byte>)
      modifies this
      ensures View() == E.SendChallenge(cipher, old(View()), key)
    {
      recvKey, recvOff := key, 0;
      sendKey, sendOff := key, 0;
      useCrypto := true;
      SendPacket(Packet(RCMSG_AUTH_CHALLENGE, key), true);
    }

    method HandleAuthChallenge(p: Packet)
      modifies this
      ensures var key := ReadKey(p.body);
              var result := if key == secret then 1 else 0;
              var rx := old(View().rx).(crypto := true, key := key, off := 0);
              var tx := old(View().tx).(key := key, off := 0);
              View() == old(View()).(rx := rx, tx := L.SendPacket(cipher, tx, true, Packet(RSMSG_AUTH_RESPONSE, Le32(result))),
                                     authenticated := result)
    {
      hide L.SendPacket, ReadKey, Le32;
      var key := ReadKey(p.body);
      var result := if key == secret then 1 else 0;
      recvKey, recvOff := key, 0;
      sendKey, sendOff := key, 0;
      useCrypto := true;
      SendPacket(Packet(RSMSG_AUTH_RESPONSE, Le32(result)), false);
      authenticated := result;
    }

    method HandlePacket(p: Packet)
      modifies this
      ensures View() == Handle(cipher, secret, role, old(View()), p).(rx := Rekey(role, old(View().rx), p))
    {
      hide L.SendPacket, ReadKey, Le32;
      handled := handled + [p];
      if role.Server? {
        if authenticated == 0 && p.opcode != RCMSG_AUTH_CHALLENGE {
          dropped := true;
        } else if p.opcode == RCMSG_AUTH_CHALLENGE {
          HandleAuthChallenge(p);
        }
      } else if p.opcode == RSMSG_AUTH_RESPONSE {
        authenticated := if |p.body| >= 1 && p.body[0] == 1 then 1 else AUTH_FAILED;
      }
    }

    method TakeHeader()
      requires |readBuffer| >= HEADER_SIZE
      modifies this
      ensures View() == old(View()).(rx := ReadHeader(cipher, old(View().rx)))
    {
      var rawOpcode, rawLength := readBuffer[..2], readBuffer[2..6];
      readBuffer := readBuffer[6..];
      if useCrypto {
        rawOpcode := Decrypt(rawOpcode);
        rawLength := Decrypt(rawLength);
      }
      opcode := FromLe16(rawOpcode);
      remaining := Swap32(FromLe32(rawLength));
    }

    method TakeBody()
      requires remaining <= |readBuffer|
      modifies this
      ensures View() == Handle(cipher, secret, role, old(View()), Body(cipher, old(View().rx)))
                        .(rx := AfterBody(cipher, role, old(View().rx)))
    {
      hide Process, L.SendPacket, Le32, ReadKey;
      var body := readBuffer[..remaining];
      readBuffer := readBuffer[remaining..];
      if useCrypto && remaining > 0 {
        body := Decrypt(body);
      }
      assert Packet(opcode, body) == Body(cipher, old(View().rx));
      HandlePacket(Packet(opcode, body));
      remaining, opcode := 0, 0;
    }

    /** The loop of OnRead over whatever the read buffer holds. */
    method OnRead()
      modifies this
      ensures View() == Settle(cipher, secret, role, old(View()))
    {
      while true
        invariant Settle(cipher, secret, role, View()) == Settle(cipher, secret, role, old(View()))
        decreases |readBuffer|
      {
        ghost var top := View();
        SettleTurn(cipher, secret, role, top);
        if remaining == 0 {
          if |readBuffer| < HEADER_SIZE {
            return;
          }
          TakeHeader();
        }
        if |readBuffer| < remaining {
          return;
        }
        ghost var h := View();
        TakeBody();
        assert OneTurn(cipher, role, top.rx) == Handled(Body(cipher, h.rx), View().rx);
        assert View() == Handle(cipher, secret, role, top, Body(cipher, h.rx)).(rx := View().rx);
      }
    }
  }
}
