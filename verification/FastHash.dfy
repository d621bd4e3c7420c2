/** The FNV-1a style hash by which span identifiers are compared (internal/validation/schema.go). */
module FastHash {

  const FNV_OFFSET_BASIS: bv64 := 14695981039346656037

  type Bytes = seq<bv8>

  function Join(b0: bv8, b1: bv8, b2: bv8, b3: bv8, b4: bv8, b5: bv8, b6: bv8, b7: bv8): bv64 {
    (b0 as bv64) | (b1 as bv64 << 8) | (b2 as bv64 << 16) | (b3 as bv64 << 24)
    | (b4 as bv64 << 32) | (b5 as bv64 << 40) | (b6 as bv64 << 48) | (b7 as bv64 << 56)
  }

  /** Eight bytes read as a little-endian word. */
  function Word(d: Bytes, i: nat): bv64
    requires i + 8 <= |d|
  {
    Join(d[i], d[i + 1], d[i + 2], d[i + 3], d[i + 4], d[i + 5], d[i + 6], d[i + 7])
  }

  /** Multiplication by the 64-bit FNV prime. */
  function TimesPrime(x: bv64): bv64 { x * 1099511628211 }

  function Mix(hash: bv64, chunk: bv64): bv64 { TimesPrime(hash ^ chunk) }

  /** The rounds from byte `i` on: whole words first, then single bytes. */
  function Rounds(mix: (bv64, bv64) -> bv64, d: Bytes, i: nat, hash: bv64): bv64
    requires i <= |d|
    decreases |d| - i
  {
    if i + 8 <= |d| then Rounds(mix, d, i + 8, mix(hash, Word(d, i)))
    else if i < |d| then Rounds(mix, d, i + 1, mix(hash, d[i] as bv64))
    else hash
  }

  function HashFrom(d: Bytes, i: nat, hash: bv64): bv64
    requires i <= |d|
  {
    Rounds(Mix, d, i, hash)
  }

  function Hash(d: Bytes): bv64 { HashFrom(d, 0, FNV_OFFSET_BASIS) }

  method FastHash64(data: Bytes) returns (hash: bv64)
    ensures hash == Hash(data)
  {
    hash := FNV_OFFSET_BASIS;
    var i: nat := 0;
    while i + 7 < |data|
      invariant i <= |data| && HashFrom(data, i, hash) == Hash(data)
    {
      hash := hash ^ Word(data, i);
      hash := TimesPrime(hash);
      i := i + 8;
    }
    while i < |data|
      invariant i <= |data| && |data| - i < 8 && HashFrom(data, i, hash) == Hash(data)
    {
      hash := hash ^ (data[i] as bv64);
      hash := TimesPrime(hash);
      i := i + 1;
    }
  }

  /** 0xce965057aff6957b is the inverse of the prime modulo 2^64. */
  function OverPrime(x: bv64): bv64 { x * 0xce965057aff6957b }

  lemma InverseOfPrime(x: bv64)
    ensures (x * 1099511628211) * 0xce965057aff6957b == x
  {
  }

  lemma PrimeInvertible(x: bv64)
    ensures OverPrime(TimesPrime(x)) == x
  {
    calc {
      OverPrime(TimesPrime(x));
    ==
      OverPrime(x * 1099511628211);
    ==
      (x * 1099511628211) * 0xce965057aff6957b;
    == { InverseOfPrime(x); }
      x;
    }
  }

  lemma XorCancels(h: bv64, a: bv64, b: bv64)
    requires h ^ a == h ^ b
    ensures a == b
  {
  }

  /** One round loses nothing of its chunk. */
  lemma MixInjective(hash: bv64, a: bv64, b: bv64)
    requires Mix(hash, a) == Mix(hash, b)
    ensures a == b
  {
    PrimeInvertible(hash ^ a);
    PrimeInvertible(hash ^ b);
    XorCancels(hash, a, b);
  }

  lemma JoinInjective(d0: bv8, d1: bv8, d2: bv8, d3: bv8, d4: bv8, d5: bv8, d6: bv8, d7: bv8,
                      e0: bv8, e1: bv8, e2: bv8, e3: bv8, e4: bv8, e5: bv8, e6: bv8, e7: bv8)
    requires Join(d0, d1, d2, d3, d4, d5, d6, d7) == Join(e0, e1, e2, e3, e4, e5, e6, e7)
    ensures d0 == e0 && d1 == e1 && d2 == e2 && d3 == e3 && d4 == e4 && d5 == e5 && d6 == e6 && d7 == e7
  {
  }

  lemma WordInjective(d: Bytes, e: Bytes)
    requires |d| == |e| == 8 && Word(d, 0) == Word(e, 0)
    ensures d == e
  {
    JoinInjective(d[0], d[1], d[2], d[3], d[4], d[5], d[6], d[7], e[0], e[1], e[2], e[3], e[4], e[5], e[6], e[7]);
  }

  lemma EightByteHash(d: Bytes)
    requires |d| == 8
    ensures Hash(d) == Mix(FNV_OFFSET_BASIS, Word(d, 0))
  {
    var h := Mix(FNV_OFFSET_BASIS, Word(d, 0));
    assert HashFrom(d, 8, h) == h;
  }

  /** Identifiers of eight bytes, the OpenTelemetry size, never collide. */
  lemma EightByteHashesInjective(d: Bytes, e: Bytes)
    requires |d| == |e| == 8
    ensures Hash(d) == Hash(e) <==> d == e
  {
    if Hash(d) == Hash(e) {
      EightByteHash(d);
      EightByteHash(e);
      MixInjective(FNV_OFFSET_BASIS, Word(d, 0), Word(e, 0));
      WordInjective(d, e);
    }
  }

  // ---- Identifiers of up to eight bytes ----

  /** A word as eight little-endian bytes. */
  function Unword(w: bv64): Bytes {
    [(w & 0xff) as bv8, ((w >> 8) & 0xff) as bv8, ((w >> 16) & 0xff) as bv8, ((w >> 24) & 0xff) as bv8,
     ((w >> 32) & 0xff) as bv8, ((w >> 40) & 0xff) as bv8, ((w >> 48) & 0xff) as bv8, ((w >> 56) & 0xff) as bv8]
  }

  lemma JoinUnword(w: bv64)
    ensures Join((w & 0xff) as bv8, ((w >> 8) & 0xff) as bv8, ((w >> 16) & 0xff) as bv8, ((w >> 24) & 0xff) as bv8,
      ((w >> 32) & 0xff) as bv8, ((w >> 40) & 0xff) as bv8, ((w >> 48) & 0xff) as bv8, ((w >> 56) & 0xff) as bv8) == w
  {
  }

  lemma WordOfUnword(w: bv64)
    ensures Word(Unword(w), 0) == w
  {
    JoinUnword(w);
  }

  /** Fewer than eight bytes are hashed one by one. */
  lemma {:induction false} RoundsSnoc(mix: (bv64, bv64) -> bv64, d: Bytes, c: bv8, i: nat, hash: bv64)
    requires i <= |d| < 7
    ensures Rounds(mix, d + [c], i, hash) == mix(Rounds(mix, d, i, hash), c as bv64)
    decreases |d| - i
  {
    var e := d + [c];
    if i == |d| {
      assert Rounds(mix, e, i + 1, mix(hash, c as bv64)) == mix(hash, c as bv64);
    } else {
      assert e[i] == d[i];
      RoundsSnoc(mix, d, c, i + 1, mix(hash, d[i] as bv64));
    }
  }

  /** The word that does after `a` what `c` does after `h`. */
  function Cross(a: bv64, h: bv64, c: bv64): bv64 { a ^ (h ^ c) }

  /** The eight bytes whose hash is that of a shorter identifier. */
  function Partner(d: Bytes): Bytes
    requires 1 <= |d| < 8
  {
    Unword(Cross(FNV_OFFSET_BASIS, Hash(d[..|d| - 1]), d[|d| - 1] as bv64))
  }

  lemma XorBack(a: bv64, b: bv64)
    ensures a ^ (a ^ b) == b
  {
  }

  lemma MixSame(a: bv64, h: bv64, c: bv64)
    ensures Mix(a, a ^ (h ^ c)) == Mix(h, c)
  {
    XorBack(a, h ^ c);
  }

  ghost predicate Crosses(mix: (bv64, bv64) -> bv64) {
    forall a, h, c {:trigger Cross(a, h, c)} :: mix(a, Cross(a, h, c)) == mix(h, c)
  }

  lemma MixCrosses()
    ensures Crosses(Mix)
  {
    forall a, h, c ensures Mix(a, Cross(a, h, c)) == Mix(h, c) {
      MixSame(a, h, c);
    }
  }

  /** One round over the word `w` gives what the rounds over `d` give. */
  lemma PartnerRounds(mix: (bv64, bv64) -> bv64, d: Bytes, start: bv64, w: bv64)
    requires 1 <= |d| < 8
    requires mix(start, w) == mix(Rounds(mix, d[..|d| - 1], 0, start), d[|d| - 1] as bv64)
    ensures Rounds(mix, Unword(w), 0, start) == Rounds(mix, d, 0, start)
  {
    var n, e := |d| - 1, Unword(w);
    WordOfUnword(w);
    assert Rounds(mix, e, 8, mix(start, Word(e, 0))) == mix(start, Word(e, 0));
    RoundsSnoc(mix, d[..n], d[n], 0, start);
    assert d == d[..n] + [d[n]];
  }

  lemma CrossedRounds(mix: (bv64, bv64) -> bv64, d: Bytes, start: bv64)
    requires 1 <= |d| < 8 && Crosses(mix)
    ensures Rounds(mix, Unword(Cross(start, Rounds(mix, d[..|d| - 1], 0, start), d[|d| - 1] as bv64)), 0, start)
      == Rounds(mix, d, 0, start)
  {
    PartnerRounds(mix, d, start, Cross(start, Rounds(mix, d[..|d| - 1], 0, start), d[|d| - 1] as bv64));
  }

  lemma PartnerCollides(d: Bytes)
    requires 1 <= |d| < 8
    ensures |Partner(d)| == 8 && Hash(Partner(d)) == Hash(d)
  {
    MixCrosses();
    CrossedRounds(Mix, d, FNV_OFFSET_BASIS);
  }

  /** A shorter identifier collides with exactly one identifier of eight bytes. */
  lemma OnlyPartner(d: Bytes, e: Bytes)
    requires 1 <= |d| < 8 && |e| == 8
    ensures Hash(e) == Hash(d) <==> e == Partner(d)
  {
    hide Hash, Partner;
    PartnerCollides(d);
    EightByteHashesInjective(e, Partner(d));
  }

  /** An identifier of up to eight bytes, as the eight bytes that stand for it. */
  function Canonical(d: Bytes): Bytes
    requires 1 <= |d| <= 8
  {
    if |d| == 8 then d else Partner(d)
  }

  /** Exactly when two identifiers of up to eight bytes collide. */
  lemma CollideIff(d: Bytes, e: Bytes)
    requires 1 <= |d| <= 8 && 1 <= |e| <= 8
    ensures Hash(d) == Hash(e) <==> Canonical(d) == Canonical(e)
  {
    hide Hash, Partner;
    if |d| < 8 {
      PartnerCollides(d);
    }
    if |e| < 8 {
      PartnerCollides(e);
    }
    EightByteHashesInjective(Canonical(d), Canonical(e));
  }

  /** A single byte collides with the same byte padded with zeros. */
  lemma OneByteCollides(b: bv8)
    ensures Hash([b]) == Hash([b, 0, 0, 0, 0, 0, 0, 0])
  {
    var d := [b, 0, 0, 0, 0, 0, 0, 0];
    EightByteHash(d);
    JoinLow(b);
    RoundsSnoc(Mix, [], b, 0, FNV_OFFSET_BASIS);
    assert [] + [b] == [b];
  }

  lemma JoinLow(b: bv8)
    ensures Join(b, 0, 0, 0, 0, 0, 0, 0) == b as bv64
  {
  }

  // ---- Identifiers of at most two bytes ----

  lemma PrimeCancels(x: bv64, y: bv64)
    requires TimesPrime(x) == TimesPrime(y)
    ensures x == y
  {
    PrimeInvertible(x);
    PrimeInvertible(y);
  }

  function XorLow(x: bv64, b: bv8): bv64 { x ^ (b as bv64) }

  function Upper(x: bv64): bv64 { x >> 8 }

  /** What reaches the final multiplication after one byte, and after two. */
  function First(a: bv8): bv64 { XorLow(FNV_OFFSET_BASIS, a) }

  function Second(a: bv8, b: bv8): bv64 { XorLow(TimesPrime(First(a)), b) }

  function BeforeLast(d: Bytes): bv64
    requires 1 <= |d| <= 2
  {
    if |d| == 1 then First(d[0]) else Second(d[0], d[1])
  }

  lemma ShortRounds(mix: (bv64, bv64) -> bv64, d: Bytes, start: bv64)
    requires 1 <= |d| <= 2
    ensures Rounds(mix, d, 0, start) ==
      if |d| == 1 then mix(start, d[0] as bv64) else mix(mix(start, d[0] as bv64), d[1] as bv64)
  {
    var h := mix(start, d[0] as bv64);
    assert Rounds(mix, d, 0, start) == Rounds(mix, d, 1, h);
    if |d| == 2 {
      assert Rounds(mix, d, 1, h) == Rounds(mix, d, 2, mix(h, d[1] as bv64));
    }
  }

  lemma ShortHash(d: Bytes)
    requires 1 <= |d| <= 2
    ensures Hash(d) == TimesPrime(BeforeLast(d))
  {
    hide TimesPrime, Rounds, Mix, XorLow;
    ShortRounds(Mix, d, FNV_OFFSET_BASIS);
    MixLow(FNV_OFFSET_BASIS, d[0]);
    if |d| == 2 {
      MixLow(TimesPrime(First(d[0])), d[1]);
    }
  }

  lemma MixLow(h: bv64, b: bv8)
    ensures Mix(h, b as bv64) == TimesPrime(XorLow(h, b))
  {
  }

  lemma FirstInjective(a: bv8, c: bv8)
    requires First(a) == First(c)
    ensures a == c
  {
    XorCancels(FNV_OFFSET_BASIS, a as bv64, c as bv64);
  }

  lemma FirstIsNotSecond(a: bv8, c: bv8, e: bv8)
    ensures First(a) != Second(c, e)
  {
    assert 14695981039346656037 ^ (a as bv64) != ((14695981039346656037 ^ (c as bv64)) * 1099511628211) ^ (e as bv64);
  }

  lemma LowByteXor(x: bv64, y: bv64, b: bv8, e: bv8)
    requires XorLow(x, b) == XorLow(y, e)
    ensures Upper(x) == Upper(y) && (x == y ==> b == e)
  {
  }

  /** The products of two first bytes differ above their lowest byte. */
  lemma ProductsApart(a: bv8, c: bv8)
    requires Upper(TimesPrime(First(a))) == Upper(TimesPrime(First(c)))
    ensures a == c
  {
    assert ((14695981039346656037 ^ (a as bv64)) * 1099511628211) >> 8
      == ((14695981039346656037 ^ (c as bv64)) * 1099511628211) >> 8;
  }

  lemma SecondInjective(a: bv8, b: bv8, c: bv8, e: bv8)
    requires Second(a, b) == Second(c, e)
    ensures a == c && b == e
  {
    hide TimesPrime, First, XorLow, Upper;
    LowByteXor(TimesPrime(First(a)), TimesPrime(First(c)), b, e);
    ProductsApart(a, c);
  }

  lemma BeforeLastInjective(d: Bytes, e: Bytes)
    requires 1 <= |d| <= |e| <= 2 && BeforeLast(d) == BeforeLast(e)
    ensures d == e
  {
    hide First, Second;
    if |e| == 1 {
      FirstInjective(d[0], e[0]);
    } else if |d| == 1 {
      FirstIsNotSecond(d[0], e[0], e[1]);
    } else {
      SecondInjective(d[0], d[1], e[0], e[1]);
    }
  }

  /** Identifiers of one or two bytes collide with none of their kind but themselves. */
  lemma TwoByteHashesInjective(d: Bytes, e: Bytes)
    requires 1 <= |d| <= 2 && 1 <= |e| <= 2
    ensures Hash(d) == Hash(e) <==> d == e
  {
    hide Hash, TimesPrime, BeforeLast;
    if Hash(d) == Hash(e) {
      ShortHash(d);
      ShortHash(e);
      PrimeCancels(BeforeLast(d), BeforeLast(e));
      if |d| <= |e| {
        BeforeLastInjective(d, e);
      } else {
        BeforeLastInjective(e, d);
      }
    }
  }

  // ---- Known values ----

  /** Without a whole word it is FNV-1a as published: the values for "", "a" and "foobar". */
  lemma PublishedValues()
    ensures Hash([]) == 0xcbf29ce484222325
    ensures Hash([0x61]) == 0xaf63dc4c8601ec8c
    ensures Hash([0x66, 0x6f, 0x6f, 0x62, 0x61, 0x72]) == 0x85944171f73967e8
  {
    assert HashFrom([], 0, FNV_OFFSET_BASIS) == FNV_OFFSET_BASIS;
    OneRound([0x61], 0, FNV_OFFSET_BASIS, 0xaf63dc4c8601ec8c);
    var d: Bytes := [0x66, 0x6f, 0x6f, 0x62, 0x61, 0x72];
    OneRound(d, 0, FNV_OFFSET_BASIS, 0xaf63db4c8601ead9);
    OneRound(d, 1, 0xaf63db4c8601ead9, 0x08985907b541d342);
    OneRound(d, 2, 0x08985907b541d342, 0xdcb27518fed9d577);
    OneRound(d, 3, 0xdcb27518fed9d577, 0xdd120e790c2512af);
    OneRound(d, 4, 0xdd120e790c2512af, 0xcac165afa2fef40a);
    OneRound(d, 5, 0xcac165afa2fef40a, 0x85944171f73967e8);
  }

  lemma RoundStep(mix: (bv64, bv64) -> bv64, d: Bytes, i: nat, hash: bv64)
    requires i < |d| < 8
    ensures Rounds(mix, d, i, hash) == Rounds(mix, d, i + 1, mix(hash, d[i] as bv64))
    ensures Rounds(mix, d, |d|, hash) == hash
  {
  }

  lemma OneRound(d: Bytes, i: nat, hash: bv64, next: bv64)
    requires i < |d| < 8 && (hash ^ (d[i] as bv64)) * 1099511628211 == next
    ensures HashFrom(d, i, hash) == HashFrom(d, i + 1, next) && HashFrom(d, |d|, next) == next
  {
    hide Rounds;
    RoundStep(Mix, d, i, hash);
    RoundStep(Mix, d, i, next);
  }
}
