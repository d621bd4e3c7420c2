/** The change-detection fingerprint of a merged configuration (internal/config/base/functions.go).
    The hash of a key and value is fixed within one call; nothing is claimed across calls. */
module Fingerprint {

  type Hash = string -> bv64

  /** The bytes written for one entry: the key, a zero byte, the value. */
  function EntryBytes(k: string, v: string): string { k + ['\0'] + v }

  /** Different entries write different bytes, given that no key holds a zero byte. */
  lemma EntryBytesInjective(k: string, v: string, k': string, v': string)
    requires '\0' !in k && '\0' !in k'
    requires EntryBytes(k, v) == EntryBytes(k', v')
    ensures k == k' && v == v'
  {
    var s := EntryBytes(k, v);
    assert s[|k|] == '\0' && s[|k'|] == '\0';
    assert forall i :: 0 <= i < |k| ==> s[i] == k[i];
    assert forall i :: 0 <= i < |k'| ==> s[i] == k'[i];
    assert |k| == |k'|;
    assert k == s[..|k|] && v == s[|k| + 1..];
    assert k' == s[..|k'|] && v' == s[|k'| + 1..];
  }

  /** Folding the values of `f` at the keys, from left to right. */
  function Fold<W>(op: (W, W) -> W, unit: W, f: string -> W, keys: seq<string>): W {
    if keys == [] then unit
    else op(Fold(op, unit, f, keys[..|keys| - 1]), f(keys[|keys| - 1]))
  }

  function Xor(a: bv64, b: bv64): bv64 { a ^ b }

  function EntryHash(m: map<string, string>, h: Hash): string -> bv64 {
    k => if k in m then h(EntryBytes(k, m[k])) else 0
  }

  predicate Distinct(keys: seq<string>) {
    forall i, j :: 0 <= i < j < |keys| ==> keys[i] != keys[j]
  }

  /** A Go map may be ranged over in any such order. */
  ghost predicate IsOrder(m: map<string, string>, keys: seq<string>) {
    Distinct(keys) && forall k :: k in keys <==> k in m
  }

  ghost predicate Swaps<W(!new)>(op: (W, W) -> W) {
    forall a, b, c :: op(op(a, b), c) == op(op(a, c), b)
  }

  lemma XorSwap(a: bv64, b: bv64, c: bv64)
    ensures (a ^ b) ^ c == (a ^ c) ^ b
  {
  }

  lemma XorIs(a: bv64, b: bv64)
    ensures Xor(a, b) == a ^ b
  {
  }

  lemma XorSwaps()
    ensures Swaps(Xor)
  {
    forall a, b, c ensures Xor(Xor(a, b), c) == Xor(Xor(a, c), b) {
      XorIs(a, b);
      XorIs(a ^ b, c);
      XorIs(a, c);
      XorIs(a ^ c, b);
      XorSwap(a, b, c);
    }
  }

  function Without(keys: seq<string>, i: nat): seq<string>
    requires i < |keys|
  {
    keys[..i] + keys[i + 1..]
  }

  lemma WithoutSnoc(keys: seq<string>, i: nat)
    requires i < |keys| - 1
    ensures Without(keys, i) == Without(keys[..|keys| - 1], i) + [keys[|keys| - 1]]
  {
  }

  lemma {:induction false} FoldWithout<W(!new)>(
    op: (W, W) -> W, unit: W, f: string -> W, keys: seq<string>, i: nat)
    requires i < |keys| && Swaps(op)
    ensures Fold(op, unit, f, keys) == op(Fold(op, unit, f, Without(keys, i)), f(keys[i]))
  {
    var n := |keys| - 1;
    if i == n {
      assert Without(keys, i) == keys[..n];
    } else {
      FoldWithout(op, unit, f, keys[..n], i);
      WithoutSnoc(keys, i);
      FoldSnoc(op, unit, f, Without(keys[..n], i), keys[n]);
    }
  }

  lemma FoldSnoc<W>(op: (W, W) -> W, unit: W, f: string -> W, keys: seq<string>, k: string)
    ensures Fold(op, unit, f, keys + [k]) == op(Fold(op, unit, f, keys), f(k))
  {
    assert (keys + [k])[..|keys|] == keys;
  }

  lemma {:induction false} WithoutKeys(keys: seq<string>, i: nat)
    requires i < |keys| && Distinct(keys)
    ensures Distinct(Without(keys, i))
    ensures forall k :: k in Without(keys, i) <==> k in keys && k != keys[i]
  {
    var rest := Without(keys, i);
    assert forall j :: 0 <= j < |rest| ==> rest[j] == keys[if j < i then j else j + 1];
    forall k | k in keys && k != keys[i] ensures k in rest {
      var j :| 0 <= j < |keys| && keys[j] == k;
      assert rest[if j < i then j else j - 1] == k;
    }
  }

  lemma BothEmpty(a: seq<string>, b: seq<string>)
    requires forall k :: k in a <==> k in b
    ensures a == [] ==> b == []
  {
    if b != [] {
      var k := b[0];
      assert k in b;
      assert k in a;
    }
  }

  /** The fold does not depend on the order of the keys. */
  lemma {:induction false} FoldOrderFree<W(!new)>(
    op: (W, W) -> W, unit: W, f: string -> W, a: seq<string>, b: seq<string>)
    requires Distinct(a) && Distinct(b) && Swaps(op)
    requires forall k :: k in a <==> k in b
    ensures Fold(op, unit, f, a) == Fold(op, unit, f, b)
    decreases |a|
  {
    BothEmpty(a, b);
    if a != [] {
      var n := |a| - 1;
      assert a[n] in b;
      var i :| 0 <= i < |b| && b[i] == a[n];
      WithoutKeys(a, n);
      WithoutKeys(b, i);
      assert Without(a, n) == a[..n];
      FoldWithout(op, unit, f, b, i);
      FoldOrderFree(op, unit, f, a[..n], Without(b, i));
    }
  }

  function Spread(x: bv64): bv64 { x ^ (x >> 33) }

  function First(x: bv64): bv64 { x * 0xff51afd7ed558ccd }

  function Second(x: bv64): bv64 { x * 0xc4ceb9fe1a85ec53 }

  /** The xor-shift and multiply finaliser. */
  function Finalise(x: bv64): bv64 { Spread(Second(Spread(First(Spread(x))))) }

  /** The range loop: XOR of the entry hashes in whatever order the map yields its keys. */
  method FoldEntries(m: map<string, string>, h: Hash) returns (out: bv64)
    ensures forall keys :: IsOrder(m, keys) ==> out == Fold(Xor, 0, EntryHash(m, h), keys)
  {
    out := 0;
    var todo := m.Keys;
    ghost var f := EntryHash(m, h);
    ghost var done: seq<string> := [];
    while todo != {}
      invariant todo <= m.Keys
      invariant forall k :: k in done <==> k in m && k !in todo
      invariant Distinct(done)
      invariant out == Fold(Xor, 0, f, done)
      decreases |todo|
    {
      var k :| k in todo;
      todo := todo - {k};
      FoldSnoc(Xor, 0, f, done, k);
      out := Xor(out, h(EntryBytes(k, m[k])));
      done := done + [k];
    }
    XorSwaps();
    forall keys | IsOrder(m, keys) ensures out == Fold(Xor, 0, f, keys) {
      FoldOrderFree(Xor, 0, f, done, keys);
    }
  }

  /** Every iteration order of the map gives the same fingerprint. */
  method Fingerprint(m: map<string, string>, h: Hash) returns (out: bv64)
    ensures forall keys :: IsOrder(m, keys) ==> out == Finalise(Fold(Xor, 0, EntryHash(m, h), keys))
  {
    out := FoldEntries(m, h);
    out := Spread(out);
    out := First(out);
    out := Spread(out);
    out := Second(out);
    out := Spread(out);
  }

  // ---- The finaliser is a bijection ----

  lemma ShiftTwice(x: bv64)
    ensures (x ^ (x >> 33)) ^ ((x ^ (x >> 33)) >> 33) == x
  {
  }

  lemma SpreadIs(x: bv64)
    ensures Spread(x) == x ^ (x >> 33)
  {
  }

  lemma SpreadTwice(x: bv64)
    ensures Spread(Spread(x)) == x
  {
    SpreadIs(x);
    SpreadIs(x ^ (x >> 33));
    ShiftTwice(x);
  }

  /** Multiplication by the inverse constants modulo 2^64. */
  function OverFirst(x: bv64): bv64 { x * 0x4f74430c22a54005 }

  function OverSecond(x: bv64): bv64 { x * 0x9cb4b2f8129337db }

  lemma FirstConstants(x: bv64)
    ensures (x * 0xff51afd7ed558ccd) * 0x4f74430c22a54005 == x
    ensures (x * 0x4f74430c22a54005) * 0xff51afd7ed558ccd == x
  {
  }

  lemma SecondConstants(x: bv64)
    ensures (x * 0xc4ceb9fe1a85ec53) * 0x9cb4b2f8129337db == x
    ensures (x * 0x9cb4b2f8129337db) * 0xc4ceb9fe1a85ec53 == x
  {
  }

  lemma FirstInvertible(x: bv64)
    ensures OverFirst(First(x)) == x && First(OverFirst(x)) == x
  {
    calc {
      OverFirst(First(x));
    ==
      OverFirst(x * 0xff51afd7ed558ccd);
    ==
      (x * 0xff51afd7ed558ccd) * 0x4f74430c22a54005;
    == { FirstConstants(x); }
      x;
    }
    calc {
      First(OverFirst(x));
    ==
      First(x * 0x4f74430c22a54005);
    ==
      (x * 0x4f74430c22a54005) * 0xff51afd7ed558ccd;
    == { FirstConstants(x); }
      x;
    }
  }

  lemma SecondInvertible(x: bv64)
    ensures OverSecond(Second(x)) == x && Second(OverSecond(x)) == x
  {
    calc {
      OverSecond(Second(x));
    ==
      OverSecond(x * 0xc4ceb9fe1a85ec53);
    ==
      (x * 0xc4ceb9fe1a85ec53) * 0x9cb4b2f8129337db;
    == { SecondConstants(x); }
      x;
    }
    calc {
      Second(OverSecond(x));
    ==
      Second(x * 0x9cb4b2f8129337db);
    ==
      (x * 0x9cb4b2f8129337db) * 0xc4ceb9fe1a85ec53;
    == { SecondConstants(x); }
      x;
    }
  }

  function Unfinalise(y: bv64): bv64 { Spread(OverFirst(Spread(OverSecond(Spread(y))))) }

  /** The finaliser is a bijection on 64-bit words, so it adds no collisions to the Xor fold. */
  lemma FinaliseIsBijection(x: bv64)
    ensures Unfinalise(Finalise(x)) == x
    ensures Finalise(Unfinalise(x)) == x
  {
    var a := Spread(x);
    SpreadTwice(x);
    FirstInvertible(a);
    var b := Spread(First(a));
    SpreadTwice(First(a));
    SecondInvertible(b);
    SpreadTwice(Second(b));
    SecondInvertible(a);
    var c := Spread(OverSecond(a));
    SpreadTwice(OverSecond(a));
    FirstInvertible(c);
    SpreadTwice(OverFirst(c));
  }

  /** Two fingerprints agree exactly when their folds do. */
  lemma SameFingerprintIff(x: bv64, y: bv64)
    ensures Finalise(x) == Finalise(y) <==> x == y
  {
    FinaliseIsBijection(x);
    FinaliseIsBijection(y);
  }

  lemma {:induction false} FoldAgrees<W>(op: (W, W) -> W, unit: W, f: string -> W, g: string -> W, keys: seq<string>)
    requires forall k :: k in keys ==> f(k) == g(k)
    ensures Fold(op, unit, f, keys) == Fold(op, unit, g, keys)
  {
    if keys != [] {
      FoldAgrees(op, unit, f, g, keys[..|keys| - 1]);
    }
  }

  ghost predicate Cancels<W(!new)>(op: (W, W) -> W) {
    forall a, x, y :: op(a, x) == op(a, y) ==> x == y
  }

  lemma XorCancel(a: bv64, x: bv64, y: bv64)
    requires a ^ x == a ^ y
    ensures x == y
  {
  }

  lemma XorCancels()
    ensures Cancels(Xor)
  {
    forall a, x, y | Xor(a, x) == Xor(a, y) ensures x == y {
      XorIs(a, x);
      XorIs(a, y);
      XorCancel(a, x, y);
    }
  }

  lemma OneKeyChanges<W(!new)>(
    op: (W, W) -> W, unit: W, f: string -> W, g: string -> W, keys: seq<string>, k: string)
    requires Swaps(op) && Cancels(op) && Distinct(keys) && k in keys
    requires forall j :: j in keys && j != k ==> f(j) == g(j)
    ensures Fold(op, unit, f, keys) == Fold(op, unit, g, keys) <==> f(k) == g(k)
  {
    var i :| 0 <= i < |keys| && keys[i] == k;
    WithoutKeys(keys, i);
    FoldWithout(op, unit, f, keys, i);
    FoldWithout(op, unit, g, keys, i);
    FoldAgrees(op, unit, f, g, Without(keys, i));
  }

  lemma OneKeyLess<W(!new)>(
    op: (W, W) -> W, unit: W, f: string -> W, g: string -> W, keys: seq<string>, k: string, rest: seq<string>)
    requires Swaps(op) && Distinct(keys) && k in keys && Distinct(rest)
    requires forall j :: j in rest <==> j in keys && j != k
    requires forall j :: j in rest ==> f(j) == g(j)
    ensures Fold(op, unit, f, keys) == op(Fold(op, unit, g, rest), f(k))
  {
    var i :| 0 <= i < |keys| && keys[i] == k;
    WithoutKeys(keys, i);
    FoldWithout(op, unit, f, keys, i);
    FoldOrderFree(op, unit, f, Without(keys, i), rest);
    FoldAgrees(op, unit, f, g, rest);
  }

  /** The fold of a map without one entry is the fold of the map, with that entry's hash xored in again. */
  lemma EntryCancels(m: map<string, string>, h: Hash, keys: seq<string>, k: string, rest: seq<string>)
    requires IsOrder(m, keys) && k in m && IsOrder(m - {k}, rest)
    ensures Fold(Xor, 0, EntryHash(m - {k}, h), rest)
      == Fold(Xor, 0, EntryHash(m, h), keys) ^ h(EntryBytes(k, m[k]))
  {
    hide Fold, Swaps;
    XorSwaps();
    var f, g := EntryHash(m, h), EntryHash(m - {k}, h);
    OneKeyLess(Xor, 0, f, g, keys, k, rest);
    XorIs(Fold(Xor, 0, g, rest), f(k));
    XorBack(Fold(Xor, 0, g, rest), f(k));
  }

  lemma XorBack(a: bv64, b: bv64)
    ensures (a ^ b) ^ b == a
  {
  }

  /** Of an empty map, and of single entries with three hashes. */
  lemma FinalValues()
    ensures Finalise(0) == 0
    ensures Finalise(1) == 0xb456bcfc34c2cb2c
    ensures Finalise(0xffffffffffffffff) == 0x64b5720b4b825f21
  {
  }

  /** Changing one value changes the fold exactly when it changes the hash of its entry; by
      SameFingerprintIff the same then holds of the fingerprint. */
  lemma OneChangeSeenIff(m: map<string, string>, h: Hash, keys: seq<string>, k: string, v: string)
    requires IsOrder(m, keys) && k in m
    ensures IsOrder(m[k := v], keys)
    ensures Fold(Xor, 0, EntryHash(m, h), keys) == Fold(Xor, 0, EntryHash(m[k := v], h), keys)
      <==> h(EntryBytes(k, m[k])) == h(EntryBytes(k, v))
  {
    XorSwaps();
    XorCancels();
    OneKeyChanges(Xor, 0, EntryHash(m, h), EntryHash(m[k := v], h), keys, k);
  }
}
