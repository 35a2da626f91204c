/** The key agreement of the login socket: the arithmetic of sections 2.5.3 and 2.6 of RFC 5054 with
    k = 3, and the interleaved key of section 3.1 of RFC 2945 on a fixed 32 bytes. */
module Srp {

  // ---- Arithmetic modulo n ---------------------------------------------------------------

  function Pow(base: int, e: nat): int { if e == 0 then 1 else base * Pow(base, e - 1) }

  /** BigNumber::ModExp. */
  function ModExp(base: int, e: nat, n: nat): (r: nat)
    requires n > 0
    ensures r < n
  {
    Pow(base, e) % n
  }

  lemma Remainder(x: int, n: nat, q: int, m: int)
    requires n > 0 && x == n * q + m && 0 <= m < n
    ensures x % n == m && x / n == q
  {
    var d := q - x / n;
    assert n * d == x % n - m by { assert n * q - n * (x / n) == n * d; }
    Apart(n, d);
  }

  lemma Apart(n: nat, d: int)
    ensures d >= 1 ==> n * d >= n
    ensures d <= -1 ==> n * d + n <= 0
  {
    if d <= -1 { assert n * (-d) >= n && n * d == -(n * (-d)); }
  }

  /** Multiples of n do not matter. */
  lemma AddMultiple(r: int, n: nat, k: int)
    requires n > 0
    ensures (r + n * k) % n == r % n
  {
    assert r + n * k == n * (r / n + k) + r % n by { assert n * (r / n + k) == n * (r / n) + n * k; }
    Remainder(r + n * k, n, r / n + k, r % n);
  }

  lemma CongruentMul(a: int, b: int, c: int, d: int, n: nat)
    requires n > 0 && a % n == b % n && c % n == d % n
    ensures (a * c) % n == (b * d) % n
  {
    var i, j := a / n - b / n, c / n - d / n;
    assert a == b + n * i by { assert n * (a / n) - n * (b / n) == n * i; }
    assert c == d + n * j by { assert n * (c / n) - n * (d / n) == n * j; }
    assert a * c == b * d + n * (i * d + b * j + n * (i * j)) by { Expand(b, d, n, i, j); }
    AddMultiple(b * d, n, i * d + b * j + n * (i * j));
  }

  lemma Expand(b: int, d: int, n: int, i: int, j: int)
    ensures (b + n * i) * (d + n * j) == b * d + n * (i * d + b * j + n * (i * j))
  {
    var x, y := n * i, n * j;
    assert (b + x) * (d + y) == b * d + x * d + b * y + x * y;
    assert x * d == n * (i * d);
    assert b * y == n * (b * j);
    assert x * y == n * (n * (i * j)) by { assert x * y == n * i * (n * j); }
    assert n * (i * d) + n * (b * j) + n * (n * (i * j)) == n * (i * d + b * j + n * (i * j));
  }

  lemma {:induction false} CongruentPow(a: int, b: int, e: nat, n: nat)
    requires n > 0 && a % n == b % n
    ensures Pow(a, e) % n == Pow(b, e) % n
  {
    if e > 0 {
      CongruentPow(a, b, e - 1, n);
      CongruentMul(a, b, Pow(a, e - 1), Pow(b, e - 1), n);
    }
  }

  lemma {:induction false} PowAdd(base: int, d: nat, e: nat)
    ensures Pow(base, d + e) == Pow(base, d) * Pow(base, e)
    ensures Pow(base, 0) == 1 && Pow(base, 1) == base
  {
    if d > 0 {
      PowAdd(base, d - 1, e);
      assert base * (Pow(base, d - 1) * Pow(base, e)) == base * Pow(base, d - 1) * Pow(base, e);
    }
  }

  lemma {:induction false} PowMul(base: int, d: nat, e: nat)
    ensures Pow(base, d * e) == Pow(Pow(base, d), e)
  {
    if e > 0 {
      PowMul(base, d, e - 1);
      PowAdd(base, d, d * (e - 1));
      assert d * e == d + d * (e - 1);
    } else {
      assert d * e == 0;
    }
  }

  lemma ReduceTwice(x: int, n: nat)
    requires n > 0
    ensures (x % n) % n == x % n
  {
    Remainder(x % n, n, 0, x % n);
  }

  // ---- The exchange ----------------------------------------------------------------------

  function Verifier(g: int, x: nat, n: nat): nat
    requires n > 0
  {
    ModExp(g, x, n)
  }

  /** The server's public value. */
  function ServerPublic(v: nat, g: int, b: nat, n: nat): nat
    requires n > 0
  {
    (v * 3 + ModExp(g, b, n)) % n
  }

  function ServerSecret(A: nat, v: nat, u: nat, b: nat, n: nat): nat
    requires n > 0
  {
    ModExp(A * ModExp(v, u, n), b, n)
  }

  /** The formula of the client in section 2.6 of RFC 5054. */
  function ClientSecret(B: nat, g: int, x: nat, a: nat, u: nat, n: nat): nat
    requires n > 0
  {
    ModExp(B - 3 * Pow(g, x), a + u * x, n)
  }

  /** The server arrives at g to the b(a + ux), for any modulus and any exponents. */
  lemma ServerSecretIs(g: int, a: nat, b: nat, u: nat, x: nat, n: nat)
    requires n > 0
    ensures ServerSecret(Pow(g, a) % n, Pow(g, x) % n, u, b, n) == Pow(g, b * (a + u * x)) % n
  {
    hide Pow;
    var A, v := ModExp(g, a, n), Verifier(g, x, n);
    ReduceTwice(Pow(g, a), n);
    ReduceTwice(Pow(g, x), n);
    CongruentPow(v, Pow(g, x), u, n);
    ReduceTwice(Pow(v, u), n);
    PowMul(g, x, u);
    assert ModExp(v, u, n) % n == Pow(g, x * u) % n;
    CongruentMul(A, Pow(g, a), ModExp(v, u, n), Pow(g, x * u), n);
    PowAdd(g, a, x * u);
    CongruentPow(A * ModExp(v, u, n), Pow(g, a + x * u), b, n);
    PowMul(g, a + x * u, b);
    Exponents(a, b, u, x);
  }

  lemma Exponents(a: nat, b: nat, u: nat, x: nat)
    ensures (a + x * u) * b == b * (a + u * x) && x * u == u * x >= 0
  {
    assert x * u == u * x;
  }

  /** So does the client, from the server's public value: both ends share the secret. */
  lemma SecretsAgree(g: int, a: nat, b: nat, u: nat, x: nat, n: nat)
    requires n > 0
    ensures ClientSecret(ServerPublic(Pow(g, x) % n, g, b, n), g, x, a, u, n) == Pow(g, b * (a + u * x)) % n
    ensures ClientSecret(ServerPublic(Pow(g, x) % n, g, b, n), g, x, a, u, n)
         == ServerSecret(Pow(g, a) % n, Pow(g, x) % n, u, b, n)
  {
    hide Pow;
    var v := Verifier(g, x, n);
    var B := ServerPublic(v, g, b, n);
    PublicIsPower(v, Pow(g, x), Pow(g, b), n);
    Exponents(a, b, u, x);
    ClientPower(B - 3 * Pow(g, x), g, b, a + u * x, n);
    ServerSecretIs(g, a, b, u, x, n);
  }

  lemma ClientPower(y: int, g: int, b: nat, e: nat, n: nat)
    requires n > 0 && y % n == Pow(g, b) % n
    ensures b * e >= 0 && ModExp(y, e, n) == ModExp(g, b * e, n)
  {
    CongruentPow(y, Pow(g, b), e, n);
    PowMul(g, b, e);
  }

  /** Taking three times the verifier off the public value leaves the server's power of g. */
  lemma PublicIsPower(v: nat, gx: int, gb: int, n: nat)
    requires n > 0 && v == gx % n
    ensures ((v * 3 + gb % n) % n - 3 * gx) % n == gb % n
  {
    var sum := v * 3 + gb % n;
    assert sum % n == sum - n * (sum / n);
    assert v == gx - n * (gx / n) && gb % n == gb - n * (gb / n);
    var k := -(sum / n) - 3 * (gx / n) - gb / n;
    assert n * k == -(n * (sum / n)) - 3 * (n * (gx / n)) - n * (gb / n) by {
      var p, q, r := sum / n, gx / n, gb / n;
      assert n * (-p - 3 * q - r) == -(n * p) - 3 * (n * q) - n * r;
    }
    assert sum % n - 3 * gx == gb + n * k;
    AddMultiple(gb, n, k);
  }

  // ---- The session key -------------------------------------------------------------------

  type Byte = x: nat | x < 0x100

  /** The lowest bytes of a number, the lowest first, filled up with zeros. */
  function Bytes(x: nat, length: nat): (t: seq<Byte>)
    ensures |t| == length
    decreases length
  {
    if length == 0 then [] else [x % 0x100] + Bytes(x / 0x100, length - 1)
  }

  /** Every other byte of a sequence, from `first` on. */
  function EveryOther(t: seq<Byte>, first: nat, count: nat): (r: seq<Byte>)
    requires first < 2 && 2 * count <= |t|
    ensures |r| == count
  {
    seq(count, i requires 0 <= i < count => t[2 * i + first])
  }

  function Interleave(a: seq<Byte>, b: seq<Byte>): (r: seq<Byte>)
    requires |a| == |b|
    ensures |r| == 2 * |a|
  {
    seq(2 * |a|, i requires 0 <= i < 2 * |a| => if i % 2 == 0 then a[i / 2] else b[i / 2])
  }

  /** SHA-1 as any function to 20 bytes. */
  ghost predicate IsDigest(hash: seq<Byte> -> seq<Byte>) { forall t :: |hash(t)| == 20 }

  /** The digests of the even and of the odd bytes, interleaved. */
  ghost function SessionKey(hash: seq<Byte> -> seq<Byte>, secret: nat): (k: seq<Byte>)
    requires IsDigest(hash)
    ensures |k| == 40
  {
    var t := Bytes(secret, 32);
    Interleave(hash(EveryOther(t, 0, 16)), hash(EveryOther(t, 1, 16)))
  }

  /** Taking a sequence apart and interleaving the halves are inverse to each other. */
  lemma InterleaveRoundTrip(t: seq<Byte>, a: seq<Byte>, b: seq<Byte>, count: nat)
    requires |t| == 2 * count && |a| == |b| == count
    ensures Interleave(EveryOther(t, 0, count), EveryOther(t, 1, count)) == t
    ensures EveryOther(Interleave(a, b), 0, count) == a && EveryOther(Interleave(a, b), 1, count) == b
  {
    forall i | 0 <= i < count
      ensures EveryOther(Interleave(a, b), 0, count)[i] == a[i] && EveryOther(Interleave(a, b), 1, count)[i] == b[i]
    {
      assert (2 * i) % 2 == 0 && (2 * i) / 2 == i && (2 * i + 1) % 2 == 1 && (2 * i + 1) / 2 == i;
    }
    forall i | 0 <= i < |t| ensures Interleave(EveryOther(t, 0, count), EveryOther(t, 1, count))[i] == t[i] {
      assert i == 2 * (i / 2) + i % 2;
    }
  }

  /** Numbers that fit are known by their bytes. */
  lemma {:induction false} BytesInjective(x: nat, y: nat, length: nat)
    requires Bytes(x, length) == Bytes(y, length) && x < Width(length) && y < Width(length)
    ensures x == y
    decreases length
  {
    if length > 0 {
      assert Bytes(x, length)[1..] == Bytes(x / 0x100, length - 1) && Bytes(y, length)[1..] == Bytes(y / 0x100, length - 1);
      assert Bytes(x, length)[0] == x % 0x100 && Bytes(y, length)[0] == y % 0x100;
      BytesInjective(x / 0x100, y / 0x100, length - 1);
    }
  }

  function Width(length: nat): nat { if length == 0 then 1 else 0x100 * Width(length - 1) }

  /** The bytes of a number one by one, the lowest first. */
  function ByteOf(x: nat, i: nat): Byte { if i == 0 then x % 0x100 else ByteOf(x / 0x100, i - 1) }

  lemma {:induction false} BytesAre(x: nat, length: nat, i: nat)
    requires i < length
    ensures Bytes(x, length)[i] == ByteOf(x, i)
    decreases length
  {
    if i > 0 { BytesAre(x / 0x100, length - 1, i - 1); }
  }

  /** Every other byte of a number of 32 bytes. */
  function Half(secret: nat, first: nat): (h: seq<Byte>)
    ensures |h| == 16
  {
    seq(16, j requires 0 <= j < 16 => ByteOf(secret, 2 * j + first))
  }

  /** The session key byte by byte: the digest of the even bytes of the secret stands at the even
      places, that of the odd bytes at the odd places. */
  lemma SessionKeyIs(hash: seq<Byte> -> seq<Byte>, secret: nat, i: nat)
    requires IsDigest(hash) && i < 20
    ensures |hash(Half(secret, 0))| == |hash(Half(secret, 1))| == 20 && |SessionKey(hash, secret)| == 40
    ensures SessionKey(hash, secret)[2 * i] == hash(Half(secret, 0))[i]
    ensures SessionKey(hash, secret)[2 * i + 1] == hash(Half(secret, 1))[i]
  {
    HalvesAre(secret, 0);
    HalvesAre(secret, 1);
    hide Bytes, Half, EveryOther;
    assert (2 * i) % 2 == 0 && (2 * i) / 2 == i && (2 * i + 1) % 2 == 1 && (2 * i + 1) / 2 == i;
  }

  lemma HalvesAre(secret: nat, first: nat)
    requires first < 2
    ensures EveryOther(Bytes(secret, 32), first, 16) == Half(secret, first)
  {
    forall j | 0 <= j < 16 ensures EveryOther(Bytes(secret, 32), first, 16)[j] == ByteOf(secret, 2 * j + first) {
      BytesAre(secret, 32, 2 * j + first);
    }
    hide ByteOf, Bytes;
  }

  /** Main theorem: a client that knows the password, and so x, has the session key of the server. */
  lemma SessionKeysAgree(hash: seq<Byte> -> seq<Byte>, g: int, a: nat, b: nat, u: nat, x: nat, n: nat)
    requires IsDigest(hash) && n > 0
    ensures var v := Verifier(g, x, n);
            SessionKey(hash, ClientSecret(ServerPublic(v, g, b, n), g, x, a, u, n))
            == SessionKey(hash, ServerSecret(ModExp(g, a, n), v, u, b, n))
  {
    SecretsAgree(g, a, b, u, x, n);
  }

  // ---- The socket ------------------------------------------------------------------------

  const Modulus: nat := 0x894B645E89E1535BBDAD5B8B290650530801B18EBFBF5E8FAB3C82872A3E9BB7
  const Generator: nat := 7

  class AuthSocket {
    var v: nat
    var b: nat
    var B: nat
    var sessionKey: seq<Byte>

    ghost predicate Challenged(x: nat)
      reads this
    {
      v == Verifier(Generator, x, Modulus) && B == ServerPublic(v, Generator, b, Modulus)
    }

    constructor ()
    {
      v, b, B, sessionKey := 0, 0, 0, [];
    }

    /** `x` is the digest of the salt and the password's digest, `random` the server's secret. */
    method HandleChallenge(x: nat, random: nat)
      modifies this
      ensures Challenged(x) && b == random && B < Modulus && sessionKey == old(sessionKey)
      ensures v == Pow(7, x) % Modulus && B == (3 * v + Pow(7, random) % Modulus) % Modulus
    {
      hide Pow;
      v := ModExp(Generator, x, Modulus);
      b := random;
      var gmod := ModExp(Generator, b, Modulus);
      B := (v * 3 + gmod) % Modulus;
    }

    /** `u` is the digest of the two public values. */
    method HandleProof(hash: seq<Byte> -> seq<Byte>, A: nat, u: nat, ghost x: nat)
      requires IsDigest(hash) && Challenged(x)
      modifies `sessionKey
      ensures sessionKey == SessionKey(hash, ServerSecret(A, v, u, b, Modulus))
      ensures forall a: nat :: A == ModExp(Generator, a, Modulus) ==>
        sessionKey == SessionKey(hash, ClientSecret(B, Generator, x, a, u, Modulus))
    {
      var S := ModExp(A * ModExp(v, u, Modulus), b, Modulus);
      sessionKey := DeriveKey(hash, S);
      forall a: nat | A == ModExp(Generator, a, Modulus)
        ensures sessionKey == SessionKey(hash, ClientSecret(B, Generator, x, a, u, Modulus))
      {
        SessionKeysAgree(hash, Generator, a, b, u, x, Modulus);
      }
    }
  }

  /** Fills t1 with every other byte of the secret. */
  method Pick(t: seq<Byte>, first: nat, t1: array<Byte>)
    requires |t| == 32 && first < 2 && t1.Length == 16
    modifies t1
    ensures t1[..] == EveryOther(t, first, 16)
  {
    for i := 0 to 16
      invariant forall j :: 0 <= j < i ==> t1[j] == t[2 * j + first]
    {
      t1[i] := t[i * 2 + first];
    }
  }

  /** Writes a digest to every other byte of vK. */
  method Place(digest: seq<Byte>, first: nat, vK: array<Byte>)
    requires |digest| == 20 && first < 2 && vK.Length == 40
    modifies vK
    ensures forall j :: 0 <= j < 20 ==> vK[2 * j + first] == digest[j] && vK[2 * j + (1 - first)] == old(vK[2 * j + (1 - first)])
  {
    for i := 0 to 20
      invariant forall j :: 0 <= j < i ==> vK[2 * j + first] == digest[j]
      invariant forall j :: 0 <= j < 20 ==> vK[2 * j + (1 - first)] == old(vK[2 * j + (1 - first)])
    {
      vK[i * 2 + first] := digest[i];
    }
  }

  /** The four loops over the arrays t, t1 and vK. */
  method DeriveKey(hash: seq<Byte> -> seq<Byte>, S: nat) returns (key: seq<Byte>)
    requires IsDigest(hash)
    ensures key == SessionKey(hash, S)
  {
    var t := Bytes(S, 32);
    var t1, vK := new Byte[16], new Byte[40];
    Pick(t, 0, t1);
    var even := hash(t1[..]);
    Place(even, 0, vK);
    Pick(t, 1, t1);
    var odd := hash(t1[..]);
    Place(odd, 1, vK);
    key := vK[..];
    ByHalves(key, even, odd);
  }

  lemma ByHalves(key: seq<Byte>, even: seq<Byte>, odd: seq<Byte>)
    requires |key| == 40 && |even| == |odd| == 20
    requires forall j :: 0 <= j < 20 ==> key[2 * j] == even[j] && key[2 * j + 1] == odd[j]
    ensures key == Interleave(even, odd)
  {
    forall i | 0 <= i < 40 ensures key[i] == Interleave(even, odd)[i] {
      assert i == 2 * (i / 2) + i % 2;
    }
  }
}
