/** Addition modulo the order of secp256k1 on 32-byte big-endian numbers, as used
    for "Private parent key to private child key" in BIP-32. */
module Scalar256 {
  import opened Bytes

  const SECP256K1_N: Bytes := [
    0xFF, 0xFF, 0xFF, 0xFF, 0xFF, 0xFF, 0xFF, 0xFF,
    0xFF, 0xFF, 0xFF, 0xFF, 0xFF, 0xFF, 0xFF, 0xFE,
    0xBA, 0xAE, 0xDC, 0xE6, 0xAF, 0x48, 0xA0, 0x3B,
    0xBF, 0xD2, 0x5E, 0x8C, 0xD0, 0x36, 0x41, 0x41]

  const N: nat := 0xFFFFFFFF_FFFFFFFF_FFFFFFFF_FFFFFFFE_BAAEDCE6_AF48A03B_BFD25E8C_D0364141

  const TWO_256: nat := 0x1_00000000_00000000_00000000_00000000_00000000_00000000_00000000_00000000

  lemma Distribute(a: nat, b: nat, c: nat, p: nat)
    ensures (a + b + c) * p == a * p + b * p + c * p
  {
  }

  lemma Shift256(v: nat, p: nat)
    ensures 256 * (v * p) == v * (256 * p) == (256 * v) * p
  {
  }

  lemma {:induction false} BeSplit(a: Bytes, b: Bytes)
    ensures BeValue(a + b) == BeValue(a) * Pow256(|b|) + BeValue(b)
    decreases |b|
  {
    if b == [] {
      assert a + b == a;
    } else {
      var c := b[..|b| - 1];
      assert (a + b)[..|a + b| - 1] == a + c;
      BeSplit(a, c);
      Shift256(BeValue(a), Pow256(|c|));
    }
  }

  lemma FourBytes(a: byte, b: byte, c: byte, d: byte)
    ensures BeValue([a, b, c, d]) == ((a as nat * 256 + b as nat) * 256 + c as nat) * 256 + d as nat
  {
    assert [a][..0] == [] && BeValue([a]) == a as nat;
    assert [a, b][..1] == [a] && BeValue([a, b]) == a as nat * 256 + b as nat;
    assert [a, b, c][..2] == [a, b];
    assert BeValue([a, b, c]) == (a as nat * 256 + b as nat) * 256 + c as nat;
    assert [a, b, c, d][..3] == [a, b, c];
  }

  lemma AppendWord(a: Bytes, w: Bytes)
    requires |w| == 4
    ensures BeValue(a + w) == BeValue(a) * 0x1_0000_0000 + BeValue(w)
  {
    BeSplit(a, w);
    assert Pow256(2) == 0x1_0000;
    assert Pow256(4) == 0x1_0000_0000;
  }

  /** The byte array and the number are the same thing. */
  lemma OrderValue()
    ensures |SECP256K1_N| == 32 && BeValue(SECP256K1_N) == N
  {
    var n := SECP256K1_N;
    FourBytes(0xFF, 0xFF, 0xFF, 0xFF);
    assert n[..4] == [0xFF, 0xFF, 0xFF, 0xFF];
    assert BeValue(n[..4]) == 0xFFFFFFFF;
    FourBytes(0xFF, 0xFF, 0xFF, 0xFF);
    AppendWord(n[..4], [0xFF, 0xFF, 0xFF, 0xFF]);
    assert n[..8] == n[..4] + [0xFF, 0xFF, 0xFF, 0xFF];
    assert BeValue(n[..8]) == 0xFFFFFFFF_FFFFFFFF;
    FourBytes(0xFF, 0xFF, 0xFF, 0xFF);
    AppendWord(n[..8], [0xFF, 0xFF, 0xFF, 0xFF]);
    assert n[..12] == n[..8] + [0xFF, 0xFF, 0xFF, 0xFF];
    assert BeValue(n[..12]) == 0xFFFFFFFF_FFFFFFFF_FFFFFFFF;
    FourBytes(0xFF, 0xFF, 0xFF, 0xFE);
    AppendWord(n[..12], [0xFF, 0xFF, 0xFF, 0xFE]);
    assert n[..16] == n[..12] + [0xFF, 0xFF, 0xFF, 0xFE];
    assert BeValue(n[..16]) == 0xFFFFFFFF_FFFFFFFF_FFFFFFFF_FFFFFFFE;
    FourBytes(0xBA, 0xAE, 0xDC, 0xE6);
    AppendWord(n[..16], [0xBA, 0xAE, 0xDC, 0xE6]);
    assert n[..20] == n[..16] + [0xBA, 0xAE, 0xDC, 0xE6];
    assert BeValue(n[..20]) == 0xFFFFFFFF_FFFFFFFF_FFFFFFFF_FFFFFFFE_BAAEDCE6;
    FourBytes(0xAF, 0x48, 0xA0, 0x3B);
    AppendWord(n[..20], [0xAF, 0x48, 0xA0, 0x3B]);
    assert n[..24] == n[..20] + [0xAF, 0x48, 0xA0, 0x3B];
    assert BeValue(n[..24]) == 0xFFFFFFFF_FFFFFFFF_FFFFFFFF_FFFFFFFE_BAAEDCE6_AF48A03B;
    FourBytes(0xBF, 0xD2, 0x5E, 0x8C);
    AppendWord(n[..24], [0xBF, 0xD2, 0x5E, 0x8C]);
    assert n[..28] == n[..24] + [0xBF, 0xD2, 0x5E, 0x8C];
    assert BeValue(n[..28]) == 0xFFFFFFFF_FFFFFFFF_FFFFFFFF_FFFFFFFE_BAAEDCE6_AF48A03B_BFD25E8C;
    FourBytes(0xD0, 0x36, 0x41, 0x41);
    AppendWord(n[..28], [0xD0, 0x36, 0x41, 0x41]);
    assert n[..32] == n[..28] + [0xD0, 0x36, 0x41, 0x41];
    assert BeValue(n[..32]) == 0xFFFFFFFF_FFFFFFFF_FFFFFFFF_FFFFFFFE_BAAEDCE6_AF48A03B_BFD25E8C_D0364141;
    assert n[..32] == n;
  }

  lemma Pow256Of32()
    ensures Pow256(32) == TWO_256
  {
    Pow256Of8();
    PowAdd(8, 8);
    PowAdd(16, 16);
  }

  lemma {:induction false} PowAdd(a: nat, b: nat)
    ensures Pow256(a + b) == Pow256(a) * Pow256(b)
  {
    if a > 0 {
      PowAdd(a - 1, b);
      assert 256 * (Pow256(a - 1) * Pow256(b)) == Pow256(a) * Pow256(b);
    }
  }

  // ----- comparison -----

  lemma {:induction false} FirstDifference(a: Bytes, b: Bytes, i: nat)
    requires |a| == |b| && i < |a| && a[..i] == b[..i] && a[i] != b[i]
    ensures LexLess(a, b) <==> a[i] < b[i]
  {
    if i > 0 {
      assert a[0] == a[..i][0] && b[0] == b[..i][0];
      assert a[1..][..i - 1] == a[..i][1..] && b[1..][..i - 1] == b[..i][1..];
      FirstDifference(a[1..], b[1..], i - 1);
    }
  }

  /** Comparing byte by byte from the front is comparing the numbers. */
  method BytesGe(lhs: Bytes, rhs: Bytes) returns (r: bool)
    requires |lhs| == |rhs|
    ensures r <==> BeValue(lhs) >= BeValue(rhs)
  {
    LexIsNumeric(lhs, rhs);
    var i := 0;
    while i < |lhs|
      invariant 0 <= i <= |lhs| && lhs[..i] == rhs[..i]
    {
      if lhs[i] != rhs[i] { FirstDifference(lhs, rhs, i); }
      if lhs[i] > rhs[i] {
        return true;
      }
      if lhs[i] < rhs[i] {
        return false;
      }
      assert lhs[..i + 1] == lhs[..i] + [lhs[i]] && rhs[..i + 1] == rhs[..i] + [rhs[i]];
      i := i + 1;
    }
    assert lhs[..i] == lhs && rhs[..i] == rhs;
    LexTrichotomy(lhs, lhs);
    return true;
  }

  // ----- addition and subtraction, one byte at a time from the end -----

  lemma Prepend(z: byte, r: Bytes)
    ensures BeValue([z] + r) == z as nat * Pow256(|r|) + BeValue(r)
  {
    BeHead([z] + r);
    assert ([z] + r)[1..] == r;
  }

  lemma AddArith(p: nat, r: nat, a: nat, b: nat, x: nat, y: nat, z: nat, carry: nat, carry': nat)
    requires r + carry * p == a + b && z + 256 * carry' == x + y + carry
    ensures (z * p + r) + carry' * (256 * p) == (x * p + a) + (y * p + b)
  {
    Distribute(z, 256 * carry', 0, p);
    Distribute(x, y, carry, p);
    Shift256(carry', p);
  }

  /** Prepending a byte of sum to both summands' bytes. */
  lemma AddByte(r: Bytes, a: Bytes, b: Bytes, x: byte, y: byte, z: byte, carry: nat, carry': nat)
    requires |r| == |a| == |b|
    requires BeValue(r) + carry * Pow256(|r|) == BeValue(a) + BeValue(b)
    requires z as nat + 256 * carry' == x as nat + y as nat + carry
    ensures BeValue([z] + r) + carry' * Pow256(|r| + 1) == BeValue([x] + a) + BeValue([y] + b)
  {
    Prepend(z, r);
    Prepend(x, a);
    Prepend(y, b);
    AddArith(Pow256(|r|), BeValue(r), BeValue(a), BeValue(b), x as nat, y as nat, z as nat, carry, carry');
  }

  lemma SubByte(r: Bytes, a: Bytes, b: Bytes, x: byte, y: byte, z: byte, borrow: nat, borrow': nat)
    requires |r| == |a| == |b|
    requires BeValue(r) + BeValue(b) == BeValue(a) + borrow * Pow256(|r|)
    requires z as nat + y as nat + borrow == x as nat + 256 * borrow'
    ensures BeValue([z] + r) + BeValue([y] + b) == BeValue([x] + a) + borrow' * Pow256(|r| + 1)
  {
    Prepend(z, r);
    Prepend(x, a);
    Prepend(y, b);
    SubArith(Pow256(|r|), BeValue(r), BeValue(a), BeValue(b), x as nat, y as nat, z as nat, borrow, borrow');
  }

  lemma SubArith(p: nat, r: nat, a: nat, b: nat, x: nat, y: nat, z: nat, borrow: nat, borrow': nat)
    requires r + b == a + borrow * p && z + y + borrow == x + 256 * borrow'
    ensures (z * p + r) + (y * p + b) == (x * p + a) + borrow' * (256 * p)
  {
    Distribute(z, y, borrow, p);
    Distribute(x, 256 * borrow', 0, p);
    Shift256(borrow', p);
  }

  /** The carry loop. */
  method AddBytes(lhs: Bytes, rhs: Bytes) returns (sum: array<byte>, carry: nat)
    requires |lhs| == |rhs| == 32
    ensures fresh(sum) && sum.Length == 32 && carry <= 1
    ensures BeValue(sum[..]) + carry * TWO_256 == BeValue(lhs) + BeValue(rhs)
  {
    sum := new byte[32];
    carry := 0;
    var i := 32;
    while i > 0
      invariant 0 <= i <= 32 && carry <= 1
      invariant BeValue(sum[i..]) + carry * Pow256(32 - i) == BeValue(lhs[i..]) + BeValue(rhs[i..])
    {
      i := i - 1;
      ghost var done, c := sum[i + 1..], carry;
      var s := lhs[i] as nat + rhs[i] as nat + carry;
      sum[i] := (s % 256) as byte;
      carry := s / 256;
      assert sum[i + 1..] == done;
      AddByte(done, lhs[i + 1..], rhs[i + 1..], lhs[i], rhs[i], sum[i], c, carry);
      assert sum[i..] == [sum[i]] + done && lhs[i..] == [lhs[i]] + lhs[i + 1..] && rhs[i..] == [rhs[i]] + rhs[i + 1..];
    }
    assert sum[0..] == sum[..] && lhs[0..] == lhs && rhs[0..] == rhs;
    Pow256Of32();
  }

  method BorrowByte(x: byte, y: byte, borrow: nat) returns (z: byte, borrow': nat)
    requires borrow <= 1
    ensures z as nat + y as nat + borrow == x as nat + 256 * borrow' && borrow' <= 1
  {
    var value := x as int - y as int - borrow;
    if value < 0 {
      return (value + 256) as byte, 1;
    } else {
      return value as byte, 0;
    }
  }

  lemma SubAt(a: Bytes, n: Bytes, done: Bytes, i: nat, z: byte, borrow: nat, borrow': nat)
    requires i < |a| == |n| && |done| == |a| - i - 1
    requires BeValue(done) + BeValue(n[i + 1..]) == BeValue(a[i + 1..]) + borrow * Pow256(|done|)
    requires z as nat + n[i] as nat + borrow == a[i] as nat + 256 * borrow'
    ensures BeValue([z] + done) + BeValue(n[i..]) == BeValue(a[i..]) + borrow' * Pow256(|a| - i)
  {
    var a1, n1 := a[i + 1..], n[i + 1..];
    assert a[i..] == [a[i]] + a1;
    assert n[i..] == [n[i]] + n1;
    assert |done| + 1 == |a| - i;
    SubByte(done, a1, n1, a[i], n[i], z, borrow, borrow');
  }

  /** The borrow loop, in place. */
  method SubtractInPlace(r: array<byte>, n: Bytes) returns (borrow: nat)
    requires r.Length == |n| == 32
    modifies r
    ensures borrow <= 1
    ensures BeValue(r[..]) + BeValue(n) == BeValue(old(r[..])) + borrow * TWO_256
  {
    borrow := 0;
    ghost var before := r[..];
    var i := 32;
    while i > 0
      invariant 0 <= i <= 32 && borrow <= 1
      invariant forall j :: 0 <= j < i ==> r[j] == before[j]
      invariant BeValue(r[i..]) + BeValue(n[i..]) == BeValue(before[i..]) + borrow * Pow256(32 - i)
    {
      i := i - 1;
      ghost var done, b := r[i + 1..], borrow;
      r[i], borrow := BorrowByte(r[i], n[i], borrow);
      assert r[i + 1..] == done && r[i..] == [r[i]] + done;
      SubAt(before, n, done, i, r[i], b, borrow);
    }
    assert r[0..] == r[..] && before[0..] == before && n[0..] == n;
    Pow256Of32();
  }

  /** What the addition computes from the exact sum: one subtraction at most, and
      256 bits of the result. */
  function Reduced(s: nat): nat
  {
    if s < N then s else (s - N) % TWO_256
  }

  method AddModN(lhs: Bytes, rhs: Bytes) returns (reduced: Bytes)
    requires |lhs| == |rhs| == 32
    ensures |reduced| == 32 && BeValue(reduced) == Reduced(BeValue(lhs) + BeValue(rhs))
  {
    var result, carry := AddBytes(lhs, rhs);
    OrderValue();
    Pow256Of32();
    BeBound(lhs);
    BeBound(rhs);
    BeBound(result[..]);
    var ge := BytesGe(result[..], SECP256K1_N);
    if carry > 0 || ge {
      ghost var sum := BeValue(result[..]);
      var borrow := SubtractInPlace(result, SECP256K1_N);
      BeBound(result[..]);
      OneSubtraction(BeValue(result[..]), sum + carry * TWO_256, carry, borrow);
    }
    reduced := result[..];
  }

  lemma OneSubtraction(r: nat, s: nat, carry: nat, borrow: nat)
    requires carry <= 1 && borrow <= 1 && N <= s && r < TWO_256
    requires r + N + carry * TWO_256 == s + borrow * TWO_256
    ensures r == Reduced(s)
  {
    if carry == borrow {
      assert r == s - N;
    } else if carry == 1 {
      assert s - N == r + TWO_256;
    }
  }

  // ----- what that is worth -----

  /** The result is congruent to the sum exactly when the sum stays below
      2^256 + n, and is the reduced sum exactly when the sum is below 2n. */
  lemma ReducedIsModular(s: nat)
    requires s < 2 * TWO_256
    ensures Reduced(s) % N == s % N <==> s < TWO_256 + N
    ensures Reduced(s) == s % N <==> s < 2 * N
  {
    if N <= s < TWO_256 + N {
      assert (s - N) % TWO_256 == s - N;
      ModStep(s - N);
    } else if s >= TWO_256 + N {
      assert (s - N) % TWO_256 == s - N - TWO_256;
      var r := s - N - TWO_256;
      ModStep(r);
      assert s == (r + N) + TWO_256;
      ModStep(s - N);
      Shifted(r, TWO_256 - N);
      ModStep(r + (TWO_256 - N));
    }
  }

  lemma ModStep(x: nat)
    ensures (x + N) % N == x % N
  {
  }

  /** Adding a number that is not a multiple of n changes the residue. */
  lemma Shifted(x: nat, d: nat)
    requires 0 < d < N
    ensures (x + d) % N != x % N
  {
    var q, m := x / N, x % N;
    assert x + d == q * N + (m + d);
    if m + d < N {
      Residue(q, m + d);
    } else {
      Residue(q + 1, m + d - N);
    }
  }

  lemma Residue(q: nat, m: nat)
    requires m < N
    ensures (q * N + m) % N == m
  {
  }

  /** Summands below 2^256 of which the second is below n: always congruent; with
      both below n: exactly the modular sum. */
  lemma AddModNMeans(a: nat, b: nat)
    requires a < TWO_256 && b < N
    ensures Reduced(a + b) % N == (a + b) % N
    ensures a < N ==> Reduced(a + b) == (a + b) % N
  {
    ReducedIsModular(a + b);
  }

  // ----- a derivation path -----

  /** The private key after adding the tweaks of a derivation path in turn. */
  function Derived(key: nat, tweaks: seq<nat>): nat
    decreases |tweaks|
  {
    if tweaks == [] then key else Derived(Reduced(tweaks[0] + key), tweaks[1..])
  }

  function Sum(xs: seq<nat>): nat
  {
    if xs == [] then 0 else xs[0] + Sum(xs[1..])
  }

  /** Along a path of valid tweaks the key is the master key plus all tweaks mod n. */
  lemma {:induction false} DerivedIsSum(key: nat, tweaks: seq<nat>)
    requires key < N && forall t :: t in tweaks ==> t < N
    ensures Derived(key, tweaks) == (key + Sum(tweaks)) % N
    decreases |tweaks|
  {
    if tweaks == [] {
      Residue(0, key);
    } else {
      var t := tweaks[0];
      assert t in tweaks && forall x :: x in tweaks[1..] ==> x in tweaks;
      AddModNMeans(t, key);
      DerivedIsSum(Reduced(t + key), tweaks[1..]);
      ModAdd(t + key, Sum(tweaks[1..]));
    }
  }

  lemma ModAdd(x: nat, y: nat)
    ensures (x % N + y) % N == (x + y) % N
  {
    var q := x / N;
    assert x + y == (x % N + y) + q * N;
    ModSteps(x % N + y, q);
  }

  lemma {:induction false} ModSteps(x: nat, q: nat)
    ensures (x + q * N) % N == x % N
  {
    if q > 0 {
      ModSteps(x, q - 1);
      ModStep(x + (q - 1) * N);
      assert x + q * N == (x + (q - 1) * N) + N;
    }
  }

  // ----- keys as bytes -----

  const HARDENED_OFFSET: nat := 0x8000_0000

  datatype DerivedKey = DerivedKey(key: Bytes, chainCode: Bytes)

  /** HMAC-SHA512 of a key and a message, and the compressed public key of a secret
      key: any functions of these shapes. */
  type Hmac = (Bytes, Bytes) -> Bytes
  type PublicKey = Bytes -> Bytes

  ghost predicate Wide(mac: Hmac)
  {
    forall k, d :: |mac(k, d)| == 64
  }

  /** A secret key the curve library accepts. */
  predicate IsSecret(key: Bytes)
  {
    0 < BeValue(key) < N
  }

  /** What is hashed for a child: the parent's secret for a hardened index, its
      public key otherwise. */
  function ChildData(parent: DerivedKey, index: nat, public: PublicKey): Option<Bytes>
  {
    if index >= HARDENED_OFFSET then Some([0] + parent.key + ToBe(index, 4))
    else if IsSecret(parent.key) then Some(public(parent.key) + ToBe(index, 4))
    else None
  }

  function Tweak(parent: DerivedKey, data: Bytes, mac: Hmac): nat
    requires |mac(parent.chainCode, data)| == 64
  {
    BeValue(mac(parent.chainCode, data)[..32])
  }

  function Child(parent: DerivedKey, index: nat, mac: Hmac, public: PublicKey): Option<DerivedKey>
    requires forall d :: |mac(parent.chainCode, d)| == 64
  {
    match ChildData(parent, index, public)
    case None => None
    case Some(data) =>
      Some(DerivedKey(ToBe(Reduced(Tweak(parent, data, mac) + BeValue(parent.key)), 32),
                      mac(parent.chainCode, data)[32..]))
  }

  method DeriveChildKey(parent: DerivedKey, index: nat, mac: Hmac, public: PublicKey) returns (child: Option<DerivedKey>)
    requires |parent.key| == 32 && Wide(mac)
    ensures child == Child(parent, index, mac, public)
    ensures child.Some? ==> |child.value.key| == 32
  {
    var data := [0] + parent.key;
    if index < HARDENED_OFFSET {
      OrderValue();
      var tooBig := BytesGe(parent.key, SECP256K1_N);
      if tooBig || BeValue(parent.key) == 0 {
        return None;
      }
      data := public(parent.key);
    }
    data := data + ToBe(index, 4);
    var output := mac(parent.chainCode, data);
    var key := AddModN(output[..32], parent.key);
    ValueToBe(key);
    return Some(DerivedKey(key, output[32..]));
  }

  /** The key at the end of a derivation path. */
  function Leaf(master: DerivedKey, path: seq<nat>, mac: Hmac, public: PublicKey): Option<DerivedKey>
    requires Wide(mac)
    decreases |path|
  {
    if path == [] then Some(master)
    else
      match Child(master, path[0], mac, public)
      case None => None
      case Some(child) => Leaf(child, path[1..], mac, public)
  }

  function Tweaks(master: DerivedKey, path: seq<nat>, mac: Hmac, public: PublicKey): seq<nat>
    requires Wide(mac) && Leaf(master, path, mac, public).Some?
    decreases |path|
  {
    if path == [] then []
    else
      [Tweak(master, ChildData(master, path[0], public).value, mac)]
      + Tweaks(Child(master, path[0], mac, public).value, path[1..], mac, public)
  }

  lemma ReducedFits(a: Bytes, b: Bytes)
    requires |a| == |b| == 32
    ensures BeValue(ToBe(Reduced(BeValue(a) + BeValue(b)), 32)) == Reduced(BeValue(a) + BeValue(b))
  {
    BeBound(a);
    BeBound(b);
    Pow256Of32();
    ToBeValue(Reduced(BeValue(a) + BeValue(b)), 32);
  }

  lemma ChildValue(parent: DerivedKey, index: nat, mac: Hmac, public: PublicKey)
    requires Wide(mac) && |parent.key| == 32 && Child(parent, index, mac, public).Some?
    ensures ChildData(parent, index, public).Some?
    ensures var key := Child(parent, index, mac, public).value.key;
            && |key| == 32
            && BeValue(key) == Reduced(Tweak(parent, ChildData(parent, index, public).value, mac) + BeValue(parent.key))
  {
    ReducedFits(mac(parent.chainCode, ChildData(parent, index, public).value)[..32], parent.key);
  }

  lemma DerivedStep(key: nat, t: nat, ts: seq<nat>)
    ensures Derived(key, [t] + ts) == Derived(Reduced(t + key), ts)
  {
    assert ([t] + ts)[1..] == ts;
  }

  lemma {:induction false} LeafIsDerived(master: DerivedKey, path: seq<nat>, mac: Hmac, public: PublicKey)
    requires Wide(mac) && |master.key| == 32 && Leaf(master, path, mac, public).Some?
    ensures BeValue(Leaf(master, path, mac, public).value.key)
         == Derived(BeValue(master.key), Tweaks(master, path, mac, public))
    decreases |path|
  {
    if path != [] {
      var child, rest := Child(master, path[0], mac, public).value, path[1..];
      ChildValue(master, path[0], mac, public);
      LeafIsDerived(child, rest, mac, public);
      DerivedStep(BeValue(master.key), Tweak(master, ChildData(master, path[0], public).value, mac),
                  Tweaks(child, rest, mac, public));
    }
  }

  /** A derivation step in the terms of BIP-32.  For a hardened index the hash is taken
      of a zero byte, the parent's key and the index, else of the parent's public key
      and the index, which is big-endian on four bytes; its first half is added to the
      key and its second half is the new chain code.  Only a plain index can fail,
      under a key that is zero or not below n. */
  lemma ChildInFields(parent: DerivedKey, index: nat, mac: Hmac, public: PublicKey, number: Bytes)
    requires Wide(mac) && |parent.key| == 32 && |number| == 4 && BeValue(number) == index
    ensures var data := if index >= 0x8000_0000 then [0] + parent.key + number else public(parent.key) + number;
            var hash, child := mac(parent.chainCode, data), Child(parent, index, mac, public);
            && (child.None? <==> index < 0x8000_0000 && (BeValue(parent.key) == 0 || BeValue(parent.key) >= N))
            && (child.Some? ==>
                  && child.value.chainCode == hash[32..] && |child.value.key| == 32
                  && BeValue(child.value.key) == Reduced(BeValue(hash[..32]) + BeValue(parent.key)))
  {
    ValueToBe(number);
    if Child(parent, index, mac, public).Some? { ChildValue(parent, index, mac, public); }
  }

  /** Along any path, hardened steps or not, whose hashes are all below n, the key is
      the master key plus all of them modulo n. */
  lemma PathIsSum(master: DerivedKey, path: seq<nat>, mac: Hmac, public: PublicKey)
    requires Wide(mac) && |master.key| == 32 && BeValue(master.key) < N && Leaf(master, path, mac, public).Some?
    requires forall t :: t in Tweaks(master, path, mac, public) ==> t < N
    ensures BeValue(Leaf(master, path, mac, public).value.key)
         == (BeValue(master.key) + Sum(Tweaks(master, path, mac, public))) % N
  {
    LeafIsDerived(master, path, mac, public);
    DerivedIsSum(BeValue(master.key), Tweaks(master, path, mac, public));
  }
}
