/** The encrypted link between the login server and the cluster server: a resumable
    framing parser (header, byte-swapped length, body), the printer that feeds it, and the
    stream cipher that both ends turn on in the middle of the connection.

    RC4 is abstract: `Cipher` gives the keystream byte of a key at an offset, and an engine is
    a key with the offset it has reached. `Rx` and `Tx` are the two halves of one socket. */
module LogonLink {

  type Byte = x: int | 0 <= x < 0x100

  type Cipher = (seq<Byte>, nat) -> Byte

  const HEADER_SIZE: nat := 6
  const KEY_SIZE: nat := 20
  const RCMSG_AUTH_CHALLENGE: nat := 9
  const RSMSG_AUTH_RESPONSE: nat := 10
  const AUTH_FAILED: nat := 0xFFFF_FFFF

  datatype Packet = Packet(opcode: nat, body: seq<Byte>)

  datatype Role = Server | Client

  /** The receiving half of a socket: the read buffer, the header already taken from it, whether
      packets are encrypted, and the receiving engine (its key and how far it has run). */
  datatype Rx = Rx(buf: seq<Byte>, remaining: nat, opcode: nat, crypto: bool, key: seq<Byte>, off: nat)

  /** The sending half: the sending engine, the bytes pushed to the transport and not yet
      delivered, and the packets given to SendPacket so far. */
  datatype Tx = Tx(key: seq<Byte>, off: nat, out: seq<Byte>, sent: seq<Packet>)

  const FreshRx := Rx([], 0, 0, false, [], 0)
  const FreshTx := Tx([], 0, [], [])

  /** What the header's field widths can carry: a 16-bit opcode and a 32-bit length. */
  predicate Sendable(p: Packet) {
    p.opcode < 0x1_0000 && |p.body| < 0x1_0000_0000
  }

  // ---- Bytes -----------------------------------------------------------------------------

  function Digit(n: nat): Byte { n % 0x100 }

  function Le16(n: nat): seq<Byte> { [Digit(n), Digit(n / 0x100)] }

  function Le32(n: nat): seq<Byte> { [Digit(n), Digit(n / 0x100), Digit(n / 0x1_0000), Digit(n / 0x100_0000)] }

  function FromLe16(s: seq<Byte>): nat
    requires |s| == 2
  {
    s[0] as int + 0x100 * s[1] as int
  }

  function FromLe32(s: seq<Byte>): nat
    requires |s| == 4
  {
    s[0] as int + 0x100 * s[1] as int + 0x1_0000 * s[2] as int + 0x100_0000 * s[3] as int
  }

  /** swap32: the four bytes of a 32-bit word in the opposite order. */
  function Swap32(p: nat): nat {
    p / 0x100_0000 % 0x100 + p / 0x1_0000 % 0x100 * 0x100 + p / 0x100 % 0x100 * 0x1_0000 + p % 0x100 * 0x100_0000
  }

  lemma Digits(a: nat, b: nat, c: nat, d: nat, p: nat)
    requires a < 0x100 && b < 0x100 && c < 0x100 && d < 0x100
    requires p == a + 0x100 * b + 0x1_0000 * c + 0x100_0000 * d
    ensures p % 0x100 == a && p / 0x100 % 0x100 == b && p / 0x1_0000 % 0x100 == c && p / 0x100_0000 % 0x100 == d
  {
    assert p / 0x100 == b + 0x100 * c + 0x1_0000 * d;
    assert p / 0x1_0000 == c + 0x100 * d;
    assert p / 0x100_0000 == d;
  }

  lemma HasDigits(p: nat)
    requires p < 0x1_0000_0000
    ensures p == p % 0x100 + 0x100 * (p / 0x100 % 0x100) + 0x1_0000 * (p / 0x1_0000 % 0x100) + 0x100_0000 * (p / 0x100_0000 % 0x100)
  {
    var q := p / 0x100;
    assert p == p % 0x100 + 0x100 * q;
    var r := q / 0x100;
    assert q == q % 0x100 + 0x100 * r && r == p / 0x1_0000;
    var s := r / 0x100;
    assert r == r % 0x100 + 0x100 * s && s == p / 0x100_0000;
  }

  /** Swapping is its own inverse on 32-bit words, stays inside them, and turns the bytes round. */
  lemma SwapTwice(p: nat)
    requires p < 0x1_0000_0000
    ensures Swap32(p) < 0x1_0000_0000 && Swap32(Swap32(p)) == p
    ensures forall i :: 0 <= i < 4 ==> Le32(Swap32(p))[i] == Le32(p)[3 - i]
  {
    HasDigits(p);
    Digits(p / 0x100_0000 % 0x100, p / 0x1_0000 % 0x100, p / 0x100 % 0x100, p % 0x100, Swap32(p));
  }

  lemma Le16RoundTrip(n: nat)
    requires n < 0x1_0000
    ensures FromLe16(Le16(n)) == n
  {
  }

  lemma Le32RoundTrip(n: nat)
    requires n < 0x1_0000_0000
    ensures FromLe32(Le32(n)) == n
  {
    HasDigits(n);
  }

  // ---- Stream cipher ---------------------------------------------------------------------

  function Pow2(n: nat): nat { if n == 0 then 1 else 2 * Pow2(n - 1) }

  /** Exclusive or of the lowest `bits` bits. */
  function Xor(a: nat, b: nat, bits: nat): (r: nat)
    ensures r < Pow2(bits)
  {
    if bits == 0 then 0 else 2 * Xor(a / 2, b / 2, bits - 1) + (if a % 2 == b % 2 then 0 else 1)
  }

  lemma {:induction false} XorTwice(a: nat, b: nat, bits: nat)
    requires a < Pow2(bits)
    ensures Xor(Xor(a, b, bits), b, bits) == a
  {
    if bits > 0 {
      XorTwice(a / 2, b / 2, bits - 1);
      assert Xor(a, b, bits) / 2 == Xor(a / 2, b / 2, bits - 1);
    }
  }

  function XorByte(a: Byte, b: Byte): Byte {
    assert Pow2(8) == 0x100 by { assert Pow2(4) == 16; }
    Xor(a, b, 8)
  }

  function BitOf(a: nat, i: nat): nat { if i == 0 then a % 2 else BitOf(a / 2, i - 1) }

  /** Bit for bit the result is set exactly where the two differ. */
  lemma {:induction false} XorBits(a: nat, b: nat, bits: nat, i: nat)
    requires i < bits
    ensures BitOf(Xor(a, b, bits), i) == (if BitOf(a, i) == BitOf(b, i) then 0 else 1)
  {
    if i > 0 {
      XorBits(a / 2, b / 2, bits - 1, i - 1);
      assert Xor(a, b, bits) / 2 == Xor(a / 2, b / 2, bits - 1);
    }
  }

  /** RC4Engine::Process from a given offset of the keystream. */
  function Process(c: Cipher, key: seq<Byte>, off: nat, data: seq<Byte>): (r: seq<Byte>)
    ensures |r| == |data|
  {
    seq(|data|, i requires 0 <= i < |data| => XorByte(data[i], c(key, off + i)))
  }

  lemma XorByteTwice(a: Byte, k: Byte)
    ensures XorByte(XorByte(a, k), k) == a
  {
    assert Pow2(8) == 0x100 by { assert Pow2(4) == 16; }
    XorTwice(a, k, 8);
  }

  /** Decrypting from the offset the sender encrypted at gives the plain text back. */
  lemma ProcessTwice(c: Cipher, key: seq<Byte>, off: nat, data: seq<Byte>)
    ensures Process(c, key, off, Process(c, key, off, data)) == data
  {
    forall i | 0 <= i < |data|
      ensures Process(c, key, off, Process(c, key, off, data))[i] == data[i]
    {
      XorByteTwice(data[i], c(key, off + i));
    }
  }

  /** The engine may be run on a piece of the stream at a time. */
  lemma ProcessConcat(c: Cipher, key: seq<Byte>, off: nat, a: seq<Byte>, b: seq<Byte>)
    ensures Process(c, key, off, a + b) == Process(c, key, off, a) + Process(c, key, off + |a|, b)
  {
    var whole, parts := Process(c, key, off, a + b), Process(c, key, off, a) + Process(c, key, off + |a|, b);
    forall i | 0 <= i < |whole|
      ensures whole[i] == parts[i]
    {
      if i >= |a| {
        assert (a + b)[i] == b[i - |a|];
      }
    }
  }

  // ---- What each end does ----------------------------------------------------------------

  function Header(p: Packet): (r: seq<Byte>)
    ensures |r| == HEADER_SIZE
  {
    Le16(p.opcode) + Le32(Swap32(|p.body|))
  }

  /** The bytes of one packet: header and body go through the engine apart. */
  function Wire(c: Cipher, crypto: bool, key: seq<Byte>, off: nat, p: Packet): seq<Byte> {
    if crypto then Process(c, key, off, Header(p)) + Process(c, key, off + HEADER_SIZE, p.body)
    else Header(p) + p.body
  }

  /** SendPacket of both classes. */
  function SendPacket(c: Cipher, tx: Tx, crypto: bool, p: Packet): Tx {
    Tx(tx.key, if crypto then tx.off + HEADER_SIZE + |p.body| else tx.off,
       tx.out + Wire(c, crypto, tx.key, tx.off, p), tx.sent + [p])
  }

  /** The key HandleAuthChallenge reads: a short body reads as zeros. */
  function ReadKey(body: seq<Byte>): seq<Byte> {
    if |body| >= KEY_SIZE then body[..KEY_SIZE] else seq(KEY_SIZE, _ => 0 as Byte)
  }

  /** What handling a packet does to the receiving half: only the server's challenge handler
      touches it, by setting the engine up and turning encryption on. */
  function Rekey(role: Role, rx: Rx, p: Packet): Rx {
    if role.Server? && p.opcode == RCMSG_AUTH_CHALLENGE then rx.(crypto := true, key := ReadKey(p.body), off := 0)
    else rx
  }

  /** The header part of one turn of OnRead's loop: opcode and length are decrypted apart. */
  function ReadHeader(c: Cipher, rx: Rx): Rx
    requires |rx.buf| >= HEADER_SIZE
  {
    var opcode := if rx.crypto then Process(c, rx.key, rx.off, rx.buf[..2]) else rx.buf[..2];
    var length := if rx.crypto then Process(c, rx.key, rx.off + 2, rx.buf[2..6]) else rx.buf[2..6];
    Rx(rx.buf[6..], Swap32(FromLe32(length)), FromLe16(opcode), rx.crypto, rx.key, if rx.crypto then rx.off + 6 else rx.off)
  }

  /** The packet that the body part of one turn hands over. */
  function Body(c: Cipher, rx: Rx): Packet
    requires rx.remaining <= |rx.buf|
  {
    var raw := rx.buf[..rx.remaining];
    Packet(rx.opcode, if rx.crypto then Process(c, rx.key, rx.off, raw) else raw)
  }

  /** The rest of that turn: the body is consumed, the packet handled, the header forgotten. */
  function AfterBody(c: Cipher, role: Role, rx: Rx): Rx
    requires rx.remaining <= |rx.buf|
  {
    var rest := rx.(buf := rx.buf[rx.remaining..], remaining := 0, opcode := 0,
                    off := if rx.crypto then rx.off + rx.remaining else rx.off);
    Rekey(role, rest, Body(c, rx))
  }

  /** One turn of OnRead's loop either returns from the loop or hands a packet over. */
  datatype Turn = Return(rx: Rx) | Handled(p: Packet, rx: Rx)

  function OneTurn(c: Cipher, role: Role, rx: Rx): (t: Turn)
    ensures t.Handled? ==> |t.rx.buf| < |rx.buf|
  {
    if rx.remaining == 0 && |rx.buf| < HEADER_SIZE then Return(rx)
    else
      var h := if rx.remaining == 0 then ReadHeader(c, rx) else rx;
      if |h.buf| < h.remaining then Return(h) else Handled(Body(c, h), AfterBody(c, role, h))
  }

  datatype Reading = Reading(rx: Rx, packets: seq<Packet>)

  /** OnRead: consume as many packets as the buffer holds, and say which were handled. */
  function OnRead(c: Cipher, role: Role, rx: Rx): Reading
    decreases |rx.buf|
  {
    match OneTurn(c, role, rx)
    case Return(last) => Reading(last, [])
    case Handled(p, next) => Then(Reading(next, [p]), OnRead(c, role, next))
  }

  function Then(first: Reading, second: Reading): Reading {
    Reading(second.rx, first.packets + second.packets)
  }

  /** Nothing more can be read: the header, or the body it announced, is not there yet. */
  predicate Settled(rx: Rx) {
    if rx.remaining == 0 then |rx.buf| < HEADER_SIZE else |rx.buf| < rx.remaining
  }

  lemma {:induction false} ReadSettles(c: Cipher, role: Role, rx: Rx)
    ensures Settled(OnRead(c, role, rx).rx)
    ensures Settled(rx) ==> OnRead(c, role, rx) == Reading(rx, [])
    decreases |rx.buf|
  {
    match OneTurn(c, role, rx)
    case Return(last) =>
    case Handled(p, next) => ReadSettles(c, role, next);
  }

  function Feed(rx: Rx, bytes: seq<Byte>): Rx { rx.(buf := rx.buf + bytes) }

  // ---- Fragmentation does not matter -----------------------------------------------------

  lemma ReadHeaderFeed(c: Cipher, rx: Rx, more: seq<Byte>)
    requires |rx.buf| >= HEADER_SIZE
    ensures ReadHeader(c, Feed(rx, more)) == Feed(ReadHeader(c, rx), more)
  {
    var b := rx.buf + more;
    assert b[..2] == rx.buf[..2] && b[2..6] == rx.buf[2..6] && b[6..] == rx.buf[6..] + more;
  }

  lemma BodyFeed(c: Cipher, role: Role, rx: Rx, more: seq<Byte>)
    requires rx.remaining <= |rx.buf|
    ensures Body(c, Feed(rx, more)) == Body(c, rx)
    ensures AfterBody(c, role, Feed(rx, more)) == Feed(AfterBody(c, role, rx), more)
  {
    var b := rx.buf + more;
    assert b[..rx.remaining] == rx.buf[..rx.remaining] && b[rx.remaining..] == rx.buf[rx.remaining..] + more;
  }

  lemma TurnFeed(c: Cipher, role: Role, rx: Rx, more: seq<Byte>)
    ensures var t := OneTurn(c, role, rx);
            match t
            case Return(last) => OneTurn(c, role, Feed(rx, more)) == OneTurn(c, role, Feed(last, more))
            case Handled(p, next) => OneTurn(c, role, Feed(rx, more)) == Handled(p, Feed(next, more))
  {
    if rx.remaining == 0 && |rx.buf| < HEADER_SIZE {
    } else {
      var h := if rx.remaining == 0 then ReadHeader(c, rx) else rx;
      if rx.remaining == 0 { ReadHeaderFeed(c, rx, more); }
      if |h.buf| >= h.remaining { BodyFeed(c, role, h, more); }
    }
  }

  /** Reading what has arrived and then the rest equals reading everything at once: no header is
      read or decrypted twice, however the bytes are split. */
  lemma {:induction false} Resume(c: Cipher, role: Role, rx: Rx, more: seq<Byte>)
    ensures var first := OnRead(c, role, rx);
            OnRead(c, role, Feed(rx, more)) == Then(first, OnRead(c, role, Feed(first.rx, more)))
    decreases |rx.buf|
  {
    TurnFeed(c, role, rx, more);
    match OneTurn(c, role, rx)
    case Return(last) =>
    case Handled(p, next) =>
      Resume(c, role, next, more);
      var later := OnRead(c, role, next);
      var rest := OnRead(c, role, Feed(later.rx, more));
      assert [p] + (later.packets + rest.packets) == ([p] + later.packets) + rest.packets;
  }

  lemma ResumeFed(c: Cipher, role: Role, rx: Rx, a: seq<Byte>, b: seq<Byte>, whole: seq<Byte>)
    requires whole == a + b
    ensures var first := OnRead(c, role, Feed(rx, a));
            OnRead(c, role, Feed(rx, whole)) == Then(first, OnRead(c, role, Feed(first.rx, b)))
  {
    hide OnRead;
    Resume(c, role, Feed(rx, a), b);
    assert rx.buf + a + b == rx.buf + whole;
    assert Feed(Feed(rx, a), b) == Feed(rx, whole);
  }

  /** Deliver a stream chunk by chunk, running OnRead after each. */
  function Deliver(c: Cipher, role: Role, rx: Rx, chunks: seq<seq<Byte>>): Reading
    decreases |chunks|
  {
    if chunks == [] then OnRead(c, role, rx)
    else
      var first := OnRead(c, role, Feed(rx, chunks[0]));
      Then(first, Deliver(c, role, first.rx, chunks[1..]))
  }

  function Flatten(chunks: seq<seq<Byte>>): seq<Byte> {
    if chunks == [] then [] else chunks[0] + Flatten(chunks[1..])
  }

  /** However the same bytes are cut, the same packets are handled and the socket ends alike. */
  lemma {:induction false} AnyFragmentation(c: Cipher, role: Role, rx: Rx, chunks: seq<seq<Byte>>)
    ensures Deliver(c, role, rx, chunks) == OnRead(c, role, Feed(rx, Flatten(chunks)))
    decreases |chunks|
  {
    if chunks == [] {
      assert Feed(rx, []) == rx;
    } else {
      var first := OnRead(c, role, Feed(rx, chunks[0]));
      AnyFragmentation(c, role, first.rx, chunks[1..]);
      ResumeFed(c, role, rx, chunks[0], Flatten(chunks[1..]), Flatten(chunks));
    }
  }

  // ---- One packet through the link -------------------------------------------------------

  predicate Quiet(rx: Rx) { rx.buf == [] && rx.remaining == 0 }

  function Advance(rx: Rx, p: Packet): Rx {
    Rx([], 0, 0, rx.crypto, rx.key, if rx.crypto then rx.off + HEADER_SIZE + |p.body| else rx.off)
  }

  lemma LengthBytes(n: nat)
    requires n < 0x1_0000_0000
    ensures Le32(Swap32(n)) == [n / 0x100_0000, n / 0x1_0000 % 0x100, n / 0x100 % 0x100, n % 0x100]
  {
    var low, high := Le32(n), Le32(Swap32(n));
    assert low == [n % 0x100, n / 0x100 % 0x100, n / 0x1_0000 % 0x100, n / 0x100_0000];
    assert |high| == 4;
    hide Swap32, Le32;
    SwapTwice(n);
    assert high[0] == low[3] && high[1] == low[2] && high[2] == low[1] && high[3] == low[0];
  }

  /** The six bytes of a header: the opcode with its low byte first, the length with its high byte first. */
  lemma HeaderBytes(p: Packet)
    requires p.opcode < 0x1_0000 && |p.body| < 0x1_0000_0000
    ensures var n := |p.body|;
            Header(p) == [p.opcode % 0x100, p.opcode / 0x100, n / 0x100_0000, n / 0x1_0000 % 0x100, n / 0x100 % 0x100, n % 0x100]
  {
    LengthBytes(|p.body|);
    hide Swap32, Le32;
  }

  lemma LengthMeans(b: seq<Byte>)
    requires |b| == 4
    ensures Swap32(FromLe32(b)) == 0x100_0000 * b[0] as int + 0x1_0000 * b[1] as int + 0x100 * b[2] as int + b[3] as int
  {
    Digits(b[0], b[1], b[2], b[3], FromLe32(b));
  }

  /** A byte of the buffer as the receiver reads it. */
  function PlainByte(c: Cipher, rx: Rx, i: nat): Byte
    requires i < |rx.buf|
  {
    if rx.crypto then XorByte(rx.buf[i], c(rx.key, rx.off + i)) else rx.buf[i]
  }

  /** What a receiver takes from any six bytes, decrypting each with the keystream byte of its own
      place: an opcode with the low byte first and a length with the high byte first. */
  lemma HeaderMeans(c: Cipher, rx: Rx)
    requires |rx.buf| >= 6
    ensures var r := ReadHeader(c, rx);
            var b := seq(6, i requires 0 <= i < 6 => PlainByte(c, rx, i));
            && (!rx.crypto ==> b == rx.buf[..6])
            && r.opcode == b[0] as int + 0x100 * b[1] as int
            && r.remaining == 0x100_0000 * b[2] as int + 0x1_0000 * b[3] as int + 0x100 * b[4] as int + b[5] as int
            && r.buf == rx.buf[6..] && r.off == rx.off + (if rx.crypto then 6 else 0)
  {
    hide XorByte;
    var b := seq(6, i requires 0 <= i < 6 => PlainByte(c, rx, i));
    var length := if rx.crypto then Process(c, rx.key, rx.off + 2, rx.buf[2..6]) else rx.buf[2..6];
    assert length == b[2..6];
    LengthMeans(length);
    hide Swap32, FromLe32;
  }

  /** On the wire each byte of header and body is encrypted with the keystream byte of its own place. */
  lemma WireBytes(c: Cipher, crypto: bool, key: seq<Byte>, off: nat, p: Packet, i: nat)
    requires i < 6 + |p.body|
    ensures |Wire(c, crypto, key, off, p)| == 6 + |p.body|
    ensures var plain := (Header(p) + p.body)[i];
            Wire(c, crypto, key, off, p)[i] == if crypto then XorByte(plain, c(key, off + i)) else plain
  {
    hide XorByte, Header;
  }

  lemma HeaderParses(p: Packet)
    requires Sendable(p)
    ensures FromLe16(Header(p)[..2]) == p.opcode
    ensures Swap32(FromLe32(Header(p)[2..6])) == |p.body|
  {
    SwapTwice(|p.body|);
    Le16RoundTrip(p.opcode);
    Le32RoundTrip(Swap32(|p.body|));
    hide Swap32, Digit, FromLe16, FromLe32;
    assert Header(p)[..2] == Le16(p.opcode);
    assert Header(p)[2..6] == Le32(Swap32(|p.body|));
  }

  /** The receiver decrypts the header in two runs of its engine, the sender encrypted it in one. */
  lemma HeaderDecrypts(c: Cipher, key: seq<Byte>, off: nat, p: Packet)
    ensures var head := Process(c, key, off, Header(p));
            && Process(c, key, off, head[..2]) == Header(p)[..2]
            && Process(c, key, off + 2, head[2..6]) == Header(p)[2..6]
  {
    var (a, b) := (Header(p)[..2], Header(p)[2..6]);
    assert Header(p) == a + b;
    ProcessConcat(c, key, off, a, b);
    ProcessTwice(c, key, off, a);
    ProcessTwice(c, key, off + 2, b);
    var head := Process(c, key, off, Header(p));
    assert head[..2] == Process(c, key, off, a) && head[2..6] == Process(c, key, off + 2, b);
  }

  /** Reading a header off a buffer that starts with one. */
  lemma ReadHeaderOf(c: Cipher, rx: Rx, head: seq<Byte>, body: seq<Byte>)
    requires |head| == HEADER_SIZE && rx.buf == head + body
    ensures var opcode := if rx.crypto then Process(c, rx.key, rx.off, head[..2]) else head[..2];
            var length := if rx.crypto then Process(c, rx.key, rx.off + 2, head[2..6]) else head[2..6];
            ReadHeader(c, rx)
            == Rx(body, Swap32(FromLe32(length)), FromLe16(opcode), rx.crypto, rx.key, if rx.crypto then rx.off + 6 else rx.off)
  {
    hide Swap32, FromLe16, FromLe32, Process;
    assert rx.buf[..2] == head[..2] && rx.buf[2..6] == head[2..6] && rx.buf[6..] == body;
  }

  lemma ReadWireHeader(c: Cipher, rx: Rx, p: Packet)
    requires Sendable(p) && Quiet(rx)
    ensures |Wire(c, rx.crypto, rx.key, rx.off, p)| >= HEADER_SIZE
    ensures ReadHeader(c, Feed(rx, Wire(c, rx.crypto, rx.key, rx.off, p)))
            == Rx(if rx.crypto then Process(c, rx.key, rx.off + HEADER_SIZE, p.body) else p.body,
                  |p.body|, p.opcode, rx.crypto, rx.key, if rx.crypto then rx.off + HEADER_SIZE else rx.off)
  {
    HeaderParses(p);
    hide Swap32, FromLe16, FromLe32, Header, Process, ReadHeader;
    var fed := Feed(rx, Wire(c, rx.crypto, rx.key, rx.off, p));
    if rx.crypto {
      HeaderDecrypts(c, rx.key, rx.off, p);
      ReadHeaderOf(c, fed, Process(c, rx.key, rx.off, Header(p)), Process(c, rx.key, rx.off + HEADER_SIZE, p.body));
    } else {
      ReadHeaderOf(c, fed, Header(p), p.body);
    }
  }

  /** A quiet receiver that stands at the sender's keystream offset handles exactly the packet
      that was sent, whatever its length (zero included), and ends quiet and aligned again. */
  lemma ReceiveOne(c: Cipher, role: Role, rx: Rx, p: Packet)
    requires Sendable(p) && Quiet(rx)
    ensures OnRead(c, role, Feed(rx, Wire(c, rx.crypto, rx.key, rx.off, p)))
            == Reading(Rekey(role, Advance(rx, p), p), [p])
  {
    var fed := Feed(rx, Wire(c, rx.crypto, rx.key, rx.off, p));
    ReadWireHeader(c, rx, p);
    var h := ReadHeader(c, fed);
    assert h.buf[..h.remaining] == h.buf && h.buf[h.remaining..] == [];
    ProcessTwice(c, rx.key, rx.off + HEADER_SIZE, p.body);
    assert Body(c, h) == p;
    assert AfterBody(c, role, h) == Rekey(role, Advance(rx, p), p);
  }

  /** Appending the bytes of one packet to those in flight makes it the next packet handled. */
  lemma OneMore(c: Cipher, role: Role, rx: Rx, flight: seq<Byte>, p: Packet)
    requires Sendable(p) && Quiet(OnRead(c, role, Feed(rx, flight)).rx)
    ensures var d := OnRead(c, role, Feed(rx, flight));
            OnRead(c, role, Feed(rx, flight + Wire(c, d.rx.crypto, d.rx.key, d.rx.off, p)))
            == Reading(Rekey(role, Advance(d.rx, p), p), d.packets + [p])
  {
    var d := OnRead(c, role, Feed(rx, flight));
    var w := Wire(c, d.rx.crypto, d.rx.key, d.rx.off, p);
    ResumeFed(c, role, rx, flight, w, flight + w);
    ReceiveOne(c, role, d.rx, p);
  }
}
