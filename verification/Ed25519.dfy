/** Double-and-add, clamping, point encoding and signing, over any commutative
    group in which the base point has the Ed25519 order. */
module Ed25519 {
  import opened Wrappers

  type Byte = x: int | 0 <= x < 256

  // The curve points with Edwards addition and the neutral point (0, 1).
  datatype Group<!G> = Group(add: (G, G) -> G, zero: G)

  ghost predicate Commutative<G(!new)>(g: Group<G>) {
    && (forall x, y :: g.add(x, y) == g.add(y, x))
    && (forall x, y, z :: g.add(g.add(x, y), z) == g.add(x, g.add(y, z)))
    && (forall x :: g.add(g.zero, x) == x)
  }

  // Repeated addition: the meaning of a scalar multiple.
  function Times<G>(g: Group<G>, n: nat, p: G): G {
    if n == 0 then g.zero else g.add(p, Times(g, n - 1, p))
  }

  lemma {:induction false} TimesAdd<G(!new)>(g: Group<G>, m: nat, n: nat, p: G)
    requires Commutative(g)
    ensures Times(g, m + n, p) == g.add(Times(g, m, p), Times(g, n, p))
  {
    if m > 0 {
      TimesAdd(g, m - 1, n, p);
    }
  }

  lemma {:induction false} TimesMul<G(!new)>(g: Group<G>, m: nat, n: nat, p: G, mn: nat)
    requires Commutative(g) && mn == m * n
    ensures Times(g, mn, p) == Times(g, m, Times(g, n, p))
  {
    if m > 0 {
      hide Commutative;
      assert (m - 1) * n == mn - n;
      TimesMul(g, m - 1, n, p, mn - n);
      TimesAdd(g, n, mn - n, p);
    } else {
      assert mn == 0;
    }
  }

  lemma {:induction false} TimesDouble<G(!new)>(g: Group<G>, n: nat, p: G)
    requires Commutative(g)
    ensures Times(g, 2 * n, p) == Times(g, n, g.add(p, p))
  {
    if n > 0 {
      TimesDouble(g, n - 1, p);
      assert Times(g, 2 * n, p) == g.add(p, Times(g, 2 * n - 1, p)) == g.add(p, g.add(p, Times(g, 2 * n - 2, p)));
    }
  }

  method ScalarMult<G(!new)>(g: Group<G>, point: G, scalar: nat) returns (result: G)
    requires Commutative(g)
    ensures result == Times(g, scalar, point)
  {
    hide Commutative;
    var addend, n := point, scalar;
    result := g.zero;
    ZeroLeft(g, Times(g, scalar, point));
    while n != 0
      invariant g.add(result, Times(g, n, addend)) == Times(g, scalar, point)
    {
      TimesDouble(g, n / 2, addend);
      if n % 2 == 1 {
        Associative(g, result, addend, Times(g, n - 1, addend));
        result := g.add(result, addend);
      }
      addend := g.add(addend, addend);
      n := n / 2;
    }
    ZeroRight(g, result);
  }

  lemma Associative<G(!new)>(g: Group<G>, x: G, y: G, z: G)
    requires Commutative(g)
    ensures g.add(g.add(x, y), z) == g.add(x, g.add(y, z))
  {}

  lemma ZeroRight<G(!new)>(g: Group<G>, x: G)
    requires Commutative(g)
    ensures g.add(x, g.zero) == x
  {}

  /* ---- powers of two and little-endian numbers ---- */

  function Pow2(n: nat): (r: nat)
    ensures r > 0
  {
    if n == 0 then 1 else 2 * Pow2(n - 1)
  }

  lemma {:induction false} Pow2Add(m: nat, n: nat)
    ensures Pow2(m + n) == Pow2(m) * Pow2(n)
  {
    if m > 0 {
      Pow2Add(m - 1, n);
    }
  }

  lemma AtLeast(m: nat, d: int)
    requires d >= 1
    ensures m * d >= m
  {}

  lemma Unique(x: int, m: nat, q: int, r: nat)
    requires m > 0 && x == m * q + r && r < m
    ensures x / m == q && x % m == r
  {
    var d := x / m - q;
    assert x == m * (x / m) + x % m;
    assert m * d == r - x % m;
    if d >= 1 { AtLeast(m, d); }
    if d <= -1 { AtLeast(m, -d); }
  }

  function LittleEndian(h: seq<Byte>): nat {
    if h == [] then 0 else h[0] + 256 * LittleEndian(h[1..])
  }

  function Bit(h: seq<Byte>, i: nat): nat
    requires i / 8 < |h|
  {
    h[i / 8] / Pow2(i % 8) % 2
  }

  lemma Product3(a: int, b: int, c: int)
    ensures a * (b * c) == (a * b) * c
  {}

  lemma Distribute(a: int, b: int, c: int)
    ensures a * (b + c) == a * b + a * c
  {}

  // Adding an even multiple of c does not change the bit at weight c.
  lemma EvenMultiple(b: nat, c: nat, k: nat)
    requires c > 0
    ensures (b + c * (2 * k)) / c % 2 == b / c % 2
  {
    Distribute(c, b / c, 2 * k);
    Unique(b + c * (2 * k), c, b / c + 2 * k, b % c);
  }

  lemma LowBitBy(b: nat, rest: nat, c: nat, d: nat)
    requires c > 0 && c * d == 128
    ensures (b + 256 * rest) / c % 2 == b / c % 2
  {
    var e := d * rest;
    Product3(c, d, rest);
    assert c * e == 128 * rest;
    Distribute(c, e, e);
    assert c * (2 * e) == 256 * rest;
    EvenMultiple(b, c, e);
  }

  lemma LowBit(b: Byte, rest: nat, i: nat)
    requires i < 8
    ensures (b + 256 * rest) / Pow2(i) % 2 == b / Pow2(i) % 2
  {
    Pow2Add(i, 7 - i);
    assert Pow2(7) == 128;
    LowBitBy(b, rest, Pow2(i), Pow2(7 - i));
  }

  lemma DivDiv(x: nat, a: nat, b: nat)
    requires a > 0 && b > 0
    ensures a * b > 0 && x / (a * b) == x / a / b
  {
    DivMod(x, a);
    DivMod(x / a, b);
    DivDivBy(x, a, b, x / a, x % a, x / a / b, x / a % b);
  }

  lemma DivMod(x: nat, a: nat)
    requires a > 0
    ensures x == a * (x / a) + x % a && x % a < a
  {}

  lemma DivDivBy(x: nat, a: nat, b: nat, y: nat, r: nat, q: nat, s: nat)
    requires a > 0 && b > 0 && x == a * y + r && r < a && y == b * q + s && s < b
    ensures a * b > 0 && x / (a * b) == q
  {
    Distribute(a, b * q, s);
    Product3(a, b, q);
    Distribute(a, b - 1, 1);
    AtMost(a, s, b - 1);
    Unique(x, a * b, q, a * s + r);
  }

  lemma AtMost(a: nat, s: nat, t: nat)
    requires s <= t
    ensures a * s <= a * t
  {}

  lemma ShiftByte(b: Byte, rest: nat, i: nat)
    requires i >= 8
    ensures (b + 256 * rest) / Pow2(i) == rest / Pow2(i - 8)
  {
    Pow2Add(8, i - 8);
    assert Pow2(8) == 256;
    DivDiv(b + 256 * rest, 256, Pow2(i - 8));
  }

  lemma {:induction false} BitOfNumber(h: seq<Byte>, i: nat)
    requires i / 8 < |h|
    ensures Bit(h, i) == LittleEndian(h) / Pow2(i) % 2
  {
    var rest := LittleEndian(h[1..]);
    if i < 8 {
      LowBit(h[0], rest, i);
    } else {
      BitOfNumber(h[1..], i - 8);
      assert i / 8 == (i - 8) / 8 + 1 && i % 8 == (i - 8) % 8;
      ShiftByte(h[0], rest, i);
    }
  }

  // Sum of the bits lo .. hi-1 at their weights.
  function BitSum(h: seq<Byte>, lo: nat, hi: nat): nat
    requires hi <= 8 * |h|
  {
    if hi <= lo then 0 else BitSum(h, lo, hi - 1) + Pow2(hi - 1) * Bit(h, hi - 1)
  }

  lemma NextBit(x: nat, m: nat)
    requires m > 0
    ensures x % (2 * m) == x % m + m * (x / m % 2)
  {
    var q := x / m;
    DivMod(x, m);
    NextBitBy(x, m, x % m, q / 2, q % 2);
  }

  lemma NextBitBy(x: nat, m: nat, r: nat, half: nat, b: nat)
    requires b < 2 && r < m && x == m * (2 * half + b) + r
    ensures x % (2 * m) == r + m * b
  {
    Distribute(m, 2 * half, b);
    Product3(m, 2, half);
    AtMost(m, b, 1);
    Unique(x, 2 * m, half, m * b + r);
  }

  lemma {:induction false} BitSumIsRemainder(h: seq<Byte>, n: nat)
    requires n <= 8 * |h|
    ensures BitSum(h, 0, n) == LittleEndian(h) % Pow2(n)
  {
    if n > 0 {
      BitSumIsRemainder(h, n - 1);
      BitOfNumber(h, n - 1);
      NextBit(LittleEndian(h), Pow2(n - 1));
    }
  }

  lemma {:induction false} BitSumSplit(h: seq<Byte>, lo: nat, hi: nat)
    requires lo <= hi <= 8 * |h|
    ensures BitSum(h, 0, hi) == BitSum(h, 0, lo) + BitSum(h, lo, hi)
  {
    if lo < hi { BitSumSplit(h, lo, hi - 1); }
  }

  /* ---- clamping ---- */

  // The secret scalar of a 64-byte hash, as the source sums it.
  function SecretScalar(h: seq<Byte>): nat
    requires |h| == 64
  {
    Pow2(254) + BitSum(h, 3, 254)
  }

  lemma DivisibleBy8(n: nat)
    requires n >= 3
    ensures Pow2(n) == 8 * Pow2(n - 3)
  {
    Pow2Add(3, n - 3);
    assert Pow2(3) == 8;
  }

  lemma RemainderOfRemainder(x: nat, k: nat)
    ensures x % (8 * k + 8) % 8 == x % 8
  {
    var m := 8 * k + 8;
    var q := x / m;
    assert x == m * q + x % m;
    Distribute(q, 8 * k, 8);
    assert m * q == 8 * (k * q + q);
    Unique(x, 8, k * q + q + x % m / 8, x % m % 8);
  }

  lemma ClampArithmetic(x: nat, top: nat, t: nat)
    requires t > 0 && top == 8 * t
    ensures x % 8 <= x % top && (top + (x % top - x % 8)) % 8 == 0
    ensures top <= top + (x % top - x % 8) < 2 * top
  {
    RemainderOfRemainder(x, t - 1);
    DivMod(x, top);
    ClampRemainder(x % top, x % 8, t);
  }

  lemma ClampRemainder(r: nat, low: nat, t: nat)
    requires r < 8 * t && r % 8 == low
    ensures low <= r && (8 * t + (r - low)) % 8 == 0 && r - low < 8 * t
  {}

  /** For every hash the bit sum is the clamped number: bit 254 set, bits 255 and
      0..2 clear, bits 3..253 those of the hash. */
  lemma Clamping(h: seq<Byte>)
    requires |h| == 64
    ensures var x := LittleEndian(h);
      SecretScalar(h) == Pow2(254) + (x % Pow2(254) - x % 8)
    ensures SecretScalar(h) % 8 == 0
    ensures Pow2(254) <= SecretScalar(h) < Pow2(255)
  {
    hide Pow2, BitSum, LittleEndian;
    var x := LittleEndian(h);
    BitSumSplit(h, 3, 254);
    BitSumIsRemainder(h, 3);
    BitSumIsRemainder(h, 254);
    DivisibleBy8(254);
    SmallPow2();
    ClampArithmetic(x, Pow2(254), Pow2(251));
    Pow2Add(1, 254);
  }

  lemma SmallPow2()
    ensures Pow2(1) == 2 && Pow2(3) == 8
  {}

  /* ---- encoding ---- */

  function ToBytes(v: nat, n: nat): (b: seq<Byte>)
    ensures |b| == n
  {
    if n == 0 then [] else [v % 256] + ToBytes(v / 256, n - 1)
  }

  lemma {:induction false} BytesRoundTrip(v: nat, n: nat)
    requires v < Pow2(8 * n)
    ensures LittleEndian(ToBytes(v, n)) == v
  {
    if n > 0 {
      Pow2Add(8, 8 * (n - 1));
      assert Pow2(8) == 256;
      BytesRoundTrip(v / 256, n - 1);
      assert ToBytes(v, n)[1..] == ToBytes(v / 256, n - 1);
    }
  }

  // y in the low 255 bits, the parity of x on top.
  function Encode(x: nat, y: nat): (b: seq<Byte>)
    requires y < Pow2(255)
    ensures |b| == 32
  {
    ToBytes(y + (x % 2) * Pow2(255), 32)
  }

  /** The 32 bytes determine y and the parity of x. */
  lemma EncodeDetermines(x: nat, y: nat)
    requires y < Pow2(255)
    ensures LittleEndian(Encode(x, y)) % Pow2(255) == y
    ensures LittleEndian(Encode(x, y)) / Pow2(255) == x % 2
  {
    hide Pow2, LittleEndian, ToBytes;
    var v := y + (x % 2) * Pow2(255);
    Pow2Add(1, 255);
    SmallPow2();
    BytesRoundTrip(v, 32);
    Unique(v, Pow2(255), x % 2, y);
  }

  /* ---- signing ---- */

  // The order of the base point.
  const ORDER: nat := 7237005577332262213973186563042994240857116359379907606001950938285454250989

  datatype Suite<!G> = Suite(group: Group<G>, base: G, encode: G -> seq<Byte>, sha512: seq<Byte> -> seq<Byte>)

  ghost predicate Sound<G(!new)>(s: Suite<G>) {
    && Commutative(s.group) && Times(s.group, ORDER, s.base) == s.group.zero
    && (forall p :: |s.encode(p)| == 32)
    && (forall m :: |s.sha512(m)| == 64)
  }

  lemma {:induction false} TimesZero<G(!new)>(g: Group<G>, n: nat)
    requires Commutative(g)
    ensures Times(g, n, g.zero) == g.zero
  {
    if n > 0 { TimesZero(g, n - 1); }
  }

  // Multiples of the base depend on the scalar modulo the order only.
  lemma TimesModOrder<G(!new)>(g: Group<G>, l: nat, n: nat, p: G)
    requires Commutative(g) && l > 0 && Times(g, l, p) == g.zero
    ensures Times(g, n % l, p) == Times(g, n, p)
  {
    hide Commutative, Times;
    var q := n / l;
    var ql, r := q * l, n % l;
    assert n == ql + r;
    TimesMul(g, q, l, p, ql);
    TimesZero(g, q);
    TimesAdd(g, ql, r, p);
    ZeroLeft(g, Times(g, r, p));
  }

  lemma ZeroLeft<G(!new)>(g: Group<G>, x: G)
    requires Commutative(g)
    ensures g.add(g.zero, x) == x
  {}

  lemma VerificationEquation<G(!new)>(g: Group<G>, l: nat, b: G, nonce: nat, k: nat, a: nat)
    requires Commutative(g) && l > 0 && Times(g, l, b) == g.zero
    ensures Times(g, (nonce + k * a) % l, b) == g.add(Times(g, nonce, b), Times(g, k, Times(g, a, b)))
  {
    hide Commutative, Times;
    var ka := k * a;
    TimesModOrder(g, l, nonce + ka, b);
    TimesAdd(g, nonce, ka, b);
    TimesMul(g, k, a, b, ka);
  }

  /** The order of the base point is the one that section 5.1 of RFC 8032 gives. */
  lemma OrderIs()
    ensures ORDER == Pow2(252) + 27742317777372353535851937790883648493
  {
    hide Pow2;
    Pow2_16();
    Pow2Add(16, 16); Pow2Add(32, 32); Pow2Add(64, 64); Pow2Add(128, 64); Pow2Add(192, 32); Pow2Add(224, 16); Pow2Add(240, 12);
    Pow2_12();
  }

  lemma Pow2_12()
    ensures Pow2(12) == 4096
  {
    Pow2Add(8, 4);
    assert Pow2(8) == 256 && Pow2(4) == 16;
  }

  lemma OrderFits()
    ensures ORDER < Pow2(8 * 32)
  {
    hide Pow2;
    Pow2_16();
    Pow2Add(16, 16); Pow2Add(32, 32); Pow2Add(64, 64); Pow2Add(128, 128);
  }

  lemma Pow2_16()
    ensures Pow2(16) == 65536
  {
    Pow2Add(8, 8);
    assert Pow2(8) == 256;
  }

  method PublicKey<G(!new)>(s: Suite<G>, seed: seq<Byte>) returns (key: Option<seq<Byte>>)
    requires Sound(s)
    ensures key.None? <==> |seed| != 32
    ensures key.Some? ==> key.value == s.encode(Times(s.group, SecretScalar(s.sha512(seed)), s.base))
  {
    if |seed| != 32 { return None; }
    var point := ScalarMult(s.group, s.base, SecretScalar(s.sha512(seed)));
    key := Some(s.encode(point));
  }

  /** The signature meets S * B = R + k * A with S below the order, where R, A and
      k are what a verifier recomputes from the signature, the key and the message. */
  method Sign<G(!new)>(s: Suite<G>, seed: seq<Byte>, message: seq<Byte>) returns (sig: seq<Byte>, ghost nonce: nat)
    requires Sound(s)
    ensures |sig| == 64
    ensures
      var key := Times(s.group, SecretScalar(s.sha512(seed)), s.base);
      var r := Times(s.group, nonce, s.base);
      var k := LittleEndian(s.sha512(sig[..32] + s.encode(key) + message)) % ORDER;
      var response := LittleEndian(sig[32..]);
      && sig[..32] == s.encode(r) && response < ORDER
      && nonce == LittleEndian(s.sha512(s.sha512(seed)[32..] + message)) % ORDER
      && Times(s.group, response, s.base) == s.group.add(r, Times(s.group, k, key))
  {
    var hashed := s.sha512(seed);
    var scalar, prefix := SecretScalar(hashed), hashed[32..];
    var key := ScalarMult(s.group, s.base, scalar);
    var n := LittleEndian(s.sha512(prefix + message)) % ORDER;
    var r := ScalarMult(s.group, s.base, n);
    var k := LittleEndian(s.sha512(s.encode(r) + s.encode(key) + message)) % ORDER;
    var response := (n + k * scalar) % ORDER;
    nonce := n;
    sig := s.encode(r) + ToBytes(response, 32);
    assert sig[..32] == s.encode(r) && sig[32..] == ToBytes(response, 32);
    OrderFits();
    BytesRoundTrip(response, 32);
    VerificationEquation(s.group, ORDER, s.base, n, k, scalar);
  }
}
