/** Byte strings as the store sees them: lexicographic order (the order of the
    key-value store), big-endian numbers, and the fact that ties the two together. */
module Bytes {
  newtype byte = x: int | 0 <= x < 256

  type Bytes = seq<byte>

  datatype Option<+T> = None | Some(value: T)

  /** A 32-byte identifier (block hash or transaction id).  Where the length
      matters the user of `bytes` says so. */
  datatype Hash = Hash(bytes: Bytes)

  type TxId = Hash

  /** The width of blue work. */
  const WORK_LEN: nat := 24

  function Zeros(n: nat): (r: Bytes)
    ensures |r| == n
  {
    seq(n, _ => 0 as byte)
  }

  function Ones(n: nat): (r: Bytes)
    ensures |r| == n && forall i :: 0 <= i < n ==> r[i] == 255
  {
    seq(n, _ => 255 as byte)
  }

  /** The order of keys in a partition: a proper prefix comes first. */
  predicate LexLess(a: Bytes, b: Bytes)
  {
    if b == [] then false
    else if a == [] then true
    else if a[0] != b[0] then a[0] < b[0]
    else LexLess(a[1..], b[1..])
  }

  predicate LexAtMost(a: Bytes, b: Bytes)
  {
    a == b || LexLess(a, b)
  }

  lemma {:induction false} LexTrichotomy(a: Bytes, b: Bytes)
    ensures LexLess(a, b) || a == b || LexLess(b, a)
    ensures !(LexLess(a, b) && LexLess(b, a))
    ensures !LexLess(a, a)
  {
    if a != [] { LexTrichotomy(a[1..], a[1..]); }
    if a != [] && b != [] && a[0] == b[0] {
      LexTrichotomy(a[1..], b[1..]);
      assert a == [a[0]] + a[1..] && b == [b[0]] + b[1..];
    }
  }

  lemma {:induction false} LexTransitive(a: Bytes, b: Bytes, c: Bytes)
    requires LexLess(a, b) && LexLess(b, c)
    ensures LexLess(a, c)
  {
    if a != [] && a[0] == b[0] == c[0] {
      LexTransitive(a[1..], b[1..], c[1..]);
    }
  }

  /** Comparing composite keys compares the fields one after the other. */
  lemma {:induction false} LexConcat(a: Bytes, b: Bytes, x: Bytes, y: Bytes)
    requires |a| == |b|
    ensures LexLess(a + x, b + y) <==> LexLess(a, b) || (a == b && LexLess(x, y))
  {
    if a == [] {
      assert a + x == x && b + y == y;
    } else {
      assert (a + x)[1..] == a[1..] + x && (b + y)[1..] == b[1..] + y;
      LexConcat(a[1..], b[1..], x, y);
      assert a == [a[0]] + a[1..] && b == [b[0]] + b[1..];
    }
  }

  function Pow256(n: nat): (r: nat)
    ensures r > 0
  {
    if n == 0 then 1 else 256 * Pow256(n - 1)
  }

  lemma Pow256Of8()
    ensures Pow256(8) == 0x1_0000_0000_0000_0000
  {
    assert Pow256(2) == 0x1_0000;
    assert Pow256(4) == 0x1_0000_0000;
    assert Pow256(6) == 0x1_0000_0000_0000;
  }

  /** The number a big-endian byte string stands for. */
  function BeValue(s: Bytes): (v: nat)
  {
    if s == [] then 0 else 256 * BeValue(s[..|s| - 1]) + s[|s| - 1] as nat
  }

  function ToBe(n: nat, len: nat): (r: Bytes)
    ensures |r| == len
  {
    if len == 0 then [] else ToBe(n / 256, len - 1) + [(n % 256) as byte]
  }

  lemma {:induction false} BeBound(s: Bytes)
    ensures BeValue(s) < Pow256(|s|)
  {
    if s != [] { BeBound(s[..|s| - 1]); }
  }

  lemma {:induction false} ToBeValue(n: nat, len: nat)
    requires n < Pow256(len)
    ensures BeValue(ToBe(n, len)) == n
  {
    if len > 0 {
      ToBeValue(n / 256, len - 1);
      var r := ToBe(n, len);
      assert r[..|r| - 1] == ToBe(n / 256, len - 1);
    }
  }

  lemma {:induction false} ValueToBe(s: Bytes)
    ensures ToBe(BeValue(s), |s|) == s
  {
    if s != [] {
      ValueToBe(s[..|s| - 1]);
      assert s == s[..|s| - 1] + [s[|s| - 1]];
    }
  }

  /** The leading byte carries the highest weight. */
  lemma {:induction false} BeHead(s: Bytes)
    requires s != []
    ensures BeValue(s) == s[0] as nat * Pow256(|s| - 1) + BeValue(s[1..])
  {
    if |s| > 1 {
      var t := s[..|s| - 1];
      BeHead(t);
      assert s[1..][..|s| - 2] == t[1..];
      assert 256 * (s[0] as nat * Pow256(|s| - 2)) == s[0] as nat * Pow256(|s| - 1);
    } else {
      assert s[..0] == [] && s[1..] == [];
    }
  }

  /** On byte strings of one length, key order is numeric order. */
  lemma {:induction false} LexIsNumeric(a: Bytes, b: Bytes)
    requires |a| == |b|
    ensures LexLess(a, b) <==> BeValue(a) < BeValue(b)
    ensures a == b <==> BeValue(a) == BeValue(b)
  {
    if a != [] {
      BeHead(a);
      BeHead(b);
      BeBound(a[1..]);
      BeBound(b[1..]);
      LexIsNumeric(a[1..], b[1..]);
      assert a == [a[0]] + a[1..] && b == [b[0]] + b[1..];
      var w := Pow256(|a| - 1);
      if a[0] < b[0] {
        HeadDominates(a[0] as nat, b[0] as nat, w, BeValue(a[1..]), BeValue(b[1..]));
      } else if b[0] < a[0] {
        HeadDominates(b[0] as nat, a[0] as nat, w, BeValue(b[1..]), BeValue(a[1..]));
      }
    }
  }

  lemma HeadDominates(x: nat, y: nat, w: nat, p: nat, q: nat)
    requires x < y && p < w
    ensures x * w + p < y * w + q
  {
    var d := y - x - 1;
    calc {
      y * w;
    ==
      (x + 1 + d) * w;
    ==
      x * w + w + d * w;
    >= { assert d * w >= 0; }
      x * w + w;
    }
  }

  lemma {:induction false} OnesValue(n: nat)
    ensures BeValue(Ones(n)) == Pow256(n) - 1
  {
    if n > 0 {
      OnesValue(n - 1);
      assert Ones(n)[..n - 1] == Ones(n - 1);
    }
  }

  function Reversed(s: Bytes): (r: Bytes)
    ensures |r| == |s| && forall i :: 0 <= i < |s| ==> r[i] == s[|s| - 1 - i]
  {
    seq(|s|, i requires 0 <= i < |s| => s[|s| - 1 - i])
  }

  function ToLe(n: nat, len: nat): (r: Bytes)
    ensures |r| == len
  {
    Reversed(ToBe(n, len))
  }

  function LeValue(s: Bytes): (v: nat)
  {
    BeValue(Reversed(s))
  }

  lemma ToLeValue(n: nat, len: nat)
    requires n < Pow256(len)
    ensures LeValue(ToLe(n, len)) == n
  {
    assert Reversed(ToLe(n, len)) == ToBe(n, len);
    ToBeValue(n, len);
  }
}
