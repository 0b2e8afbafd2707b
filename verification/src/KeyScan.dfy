/** Composite keys are scanned by lexicographic range: prefix fields, then a
    big-endian time, then the rest.  A scan gives exactly what filtering on the
    fields would. */
module KeyScan {
  import opened Bytes
  import opened AcceptanceLog
  import opened MessageIndexes

  const TIME_LEN: nat := 8

  /** The keys of a partition, in the store's order. */
  predicate Sorted(keys: seq<Bytes>)
  {
    forall i, j :: 0 <= i < j < |keys| ==> LexLess(keys[i], keys[j])
  }

  /** The first place from which on keys are at least `lo`. */
  function LowerBound(keys: seq<Bytes>, lo: Bytes): (i: nat)
    ensures i <= |keys|
  {
    if keys == [] || LexAtMost(lo, keys[0]) then 0 else 1 + LowerBound(keys[1..], lo)
  }

  /** The first place from which on keys are beyond `hi`. */
  function UpperBound(keys: seq<Bytes>, hi: Bytes): (i: nat)
    ensures i <= |keys|
  {
    if keys == [] || !LexAtMost(keys[0], hi) then 0 else 1 + UpperBound(keys[1..], hi)
  }

  /** What the store returns for an inclusive range: one contiguous part. */
  function Range(keys: seq<Bytes>, lo: Bytes, hi: Bytes): seq<Bytes>
  {
    var i, j := LowerBound(keys, lo), UpperBound(keys, hi);
    if i <= j then keys[i..j] else []
  }

  /** The keys within bounds, picked one by one. */
  function Within(keys: seq<Bytes>, lo: Bytes, hi: Bytes): seq<Bytes>
  {
    if keys == [] then []
    else
      (if LexAtMost(lo, keys[0]) && LexAtMost(keys[0], hi) then [keys[0]] else [])
      + Within(keys[1..], lo, hi)
  }

  lemma {:induction false} NoneWithin(keys: seq<Bytes>, lo: Bytes, hi: Bytes)
    requires forall k :: k in keys ==> !LexAtMost(k, hi)
    ensures Within(keys, lo, hi) == [] && UpperBound(keys, hi) == 0
  {
    if keys != [] { NoneWithin(keys[1..], lo, hi); }
  }

  /** In a sorted partition the contiguous part holds exactly the keys within bounds. */
  lemma {:induction false} RangeIsWithin(keys: seq<Bytes>, lo: Bytes, hi: Bytes)
    requires Sorted(keys)
    ensures Range(keys, lo, hi) == Within(keys, lo, hi)
  {
    if keys != [] {
      var k, rest := keys[0], keys[1..];
      RangeIsWithin(rest, lo, hi);
      if !LexAtMost(k, hi) {
        forall x | x in rest ensures !LexAtMost(x, hi) {
          LaterIsBeyond(keys, hi, x);
        }
        NoneWithin(rest, lo, hi);
      } else if LexAtMost(lo, k) {
        forall x | x in rest ensures LexAtMost(lo, x) {
          LaterIsAbove(keys, lo, x);
        }
        assert LowerBound(rest, lo) == 0 by { if rest != [] { assert rest[0] in rest; } }
        assert keys[0..1 + UpperBound(rest, hi)] == [k] + rest[0..UpperBound(rest, hi)];
      } else {
        var i, j := LowerBound(rest, lo), UpperBound(rest, hi);
        if i <= j { assert keys[1 + i..1 + j] == rest[i..j]; }
      }
    }
  }

  lemma LaterIsAbove(keys: seq<Bytes>, lo: Bytes, x: Bytes)
    requires Sorted(keys) && keys != [] && LexAtMost(lo, keys[0]) && x in keys[1..]
    ensures LexAtMost(lo, x)
  {
    var m :| 0 <= m < |keys[1..]| && keys[1..][m] == x;
    assert keys[m + 1] == x && LexLess(keys[0], x);
    if lo != keys[0] { LexTransitive(lo, keys[0], x); }
  }

  lemma LaterIsBeyond(keys: seq<Bytes>, hi: Bytes, x: Bytes)
    requires Sorted(keys) && keys != [] && !LexAtMost(keys[0], hi) && x in keys[1..]
    ensures !LexAtMost(x, hi)
  {
    var m :| 0 <= m < |keys[1..]| && keys[1..][m] == x;
    assert keys[m + 1] == x && LexLess(keys[0], x);
    if LexAtMost(x, hi) && x != hi { LexTransitive(keys[0], x, hi); }
  }

  /** The scan by prefix fields from a time on: the upper bound is the prefix
      followed by eight 0xFF bytes. */
  function Scan(keys: seq<Bytes>, prefix: Bytes, from: nat): seq<Bytes>
  {
    Range(keys, prefix + ToBe(from, TIME_LEN), prefix + Ones(TIME_LEN))
  }

  function TimeAt(key: Bytes, n: nat): nat
    requires n + TIME_LEN <= |key|
  {
    BeValue(key[n..n + TIME_LEN])
  }

  /** The naive filter: prefix fields equal, time at least `from` and not the
      greatest 64-bit number. */
  predicate Selected(key: Bytes, prefix: Bytes, from: nat)
  {
    && |prefix| + TIME_LEN < |key|
    && key[..|prefix|] == prefix
    && from <= TimeAt(key, |prefix|) < U64_LIMIT - 1
  }

  function Filter(keys: seq<Bytes>, prefix: Bytes, from: nat): seq<Bytes>
  {
    if keys == [] then []
    else (if Selected(keys[0], prefix, from) then [keys[0]] else []) + Filter(keys[1..], prefix, from)
  }

  /** One key against the bounds.  The upper bound is a proper prefix of the keys
      at the greatest time, so those, and only those, fall out. */
  lemma InBounds(key: Bytes, prefix: Bytes, from: nat)
    requires |prefix| + TIME_LEN < |key| && from < U64_LIMIT
    ensures LexAtMost(prefix + ToBe(from, TIME_LEN), key) && LexAtMost(key, prefix + Ones(TIME_LEN))
         <==> Selected(key, prefix, from)
  {
    var n := |prefix|;
    var p, t, rest := key[..n], key[n..n + TIME_LEN], key[n + TIME_LEN..];
    var lo, hi := ToBe(from, TIME_LEN), Ones(TIME_LEN);
    assert key == p + (t + rest);
    assert prefix + lo == prefix + (lo + []) && prefix + hi == prefix + (hi + []);
    assert |key| != |prefix + lo| && |key| != |prefix + hi|;
    LexConcat(prefix, p, lo + [], t + rest);
    LexConcat(lo, t, [], rest);
    LexConcat(p, prefix, t + rest, hi + []);
    LexConcat(t, hi, rest, []);
    LexTrichotomy(p, prefix);
    LexTrichotomy(prefix, prefix);
    Pow256Of8();
    ToBeValue(from, TIME_LEN);
    OnesValue(TIME_LEN);
    LexIsNumeric(lo, t);
    LexIsNumeric(t, hi);
  }

  lemma {:induction false} WithinIsFilter(keys: seq<Bytes>, prefix: Bytes, from: nat)
    requires from < U64_LIMIT
    requires forall k :: k in keys ==> |prefix| + TIME_LEN < |k|
    ensures Within(keys, prefix + ToBe(from, TIME_LEN), prefix + Ones(TIME_LEN)) == Filter(keys, prefix, from)
  {
    if keys != [] {
      assert keys[0] in keys;
      InBounds(keys[0], prefix, from);
      WithinIsFilter(keys[1..], prefix, from);
    }
  }

  /** A scan returns exactly the selected keys, in the store's order. */
  lemma ScanIsFilter(keys: seq<Bytes>, prefix: Bytes, from: nat)
    requires Sorted(keys) && from < U64_LIMIT
    requires forall k :: k in keys ==> |prefix| + TIME_LEN < |k|
    ensures Scan(keys, prefix, from) == Filter(keys, prefix, from)
  {
    RangeIsWithin(keys, prefix + ToBe(from, TIME_LEN), prefix + Ones(TIME_LEN));
    WithinIsFilter(keys, prefix, from);
  }

  lemma {:induction false} FilterKeeps(keys: seq<Bytes>, prefix: Bytes, from: nat)
    requires Sorted(keys)
    ensures Sorted(Filter(keys, prefix, from))
    ensures forall k :: k in Filter(keys, prefix, from) <==> k in keys && Selected(k, prefix, from)
  {
    if keys != [] {
      FilterKeeps(keys[1..], prefix, from);
      var rest, all := Filter(keys[1..], prefix, from), Filter(keys, prefix, from);
      forall i, j | 0 <= i < j < |all| ensures LexLess(all[i], all[j]) {
        if all != rest {
          assert all[1..] == rest;
          if i == 0 {
            assert all[j] == rest[j - 1] && rest[j - 1] in keys[1..];
            var m :| 0 <= m < |keys[1..]| && keys[1..][m] == all[j];
            assert keys[m + 1] == all[j];
          } else {
            assert all[i] == rest[i - 1] && all[j] == rest[j - 1];
          }
        }
      }
    }
  }

  /** Range scan equals filter: over any sorted partition, a scan returns exactly
      the keys of the partition with the given prefix fields and a time from `from`
      up to but not including the greatest, each once, times never going down. */
  lemma RangeScan(keys: seq<Bytes>, prefix: Bytes, from: nat)
    requires Sorted(keys) && from < U64_LIMIT
    requires forall k :: k in keys ==> |prefix| + TIME_LEN < |k|
    ensures var r := Scan(keys, prefix, from);
            && (forall k :: k in r <==> k in keys && Selected(k, prefix, from))
            && Sorted(r)
            && (forall i, j :: 0 <= i < j < |r| ==>
                  && |prefix| + TIME_LEN <= |r[i]| && |prefix| + TIME_LEN <= |r[j]|
                  && TimeAt(r[i], |prefix|) <= TimeAt(r[j], |prefix|))
  {
    ScanIsFilter(keys, prefix, from);
    FilterKeeps(keys, prefix, from);
    var r := Scan(keys, prefix, from);
    forall i, j | 0 <= i < j < |r|
      ensures |prefix| + TIME_LEN <= |r[i]| && |prefix| + TIME_LEN <= |r[j]|
      ensures TimeAt(r[i], |prefix|) <= TimeAt(r[j], |prefix|)
    {
      assert r[i] in r && r[j] in r;
      TimesFollowKeys(r[i], r[j], prefix);
    }
  }

  lemma TimesFollowKeys(a: Bytes, b: Bytes, prefix: Bytes)
    requires |prefix| + TIME_LEN <= |a| && |prefix| + TIME_LEN <= |b|
    requires a[..|prefix|] == prefix == b[..|prefix|] && LexLess(a, b)
    ensures TimeAt(a, |prefix|) <= TimeAt(b, |prefix|)
  {
    var n := |prefix|;
    var s, t := a[n..n + TIME_LEN], b[n..n + TIME_LEN];
    assert a == prefix + (s + a[n + TIME_LEN..]) && b == prefix + (t + b[n + TIME_LEN..]);
    LexConcat(prefix, prefix, s + a[n + TIME_LEN..], t + b[n + TIME_LEN..]);
    LexConcat(s, t, a[n + TIME_LEN..], b[n + TIME_LEN..]);
    LexTrichotomy(prefix, prefix);
    LexIsNumeric(s, t);
  }

  // ----- the scans of the message indexes -----

  /** A key made of prefix fields, a time and more is selected by those fields. */
  lemma SelectedFields(p: Bytes, time: nat, rest: Bytes, prefix: Bytes, from: nat)
    requires |p| == |prefix| && time < U64_LIMIT && rest != []
    ensures Selected(p + (ToBe(time, TIME_LEN) + rest), prefix, from)
         <==> p == prefix && from <= time < U64_LIMIT - 1
  {
    var key := p + (ToBe(time, TIME_LEN) + rest);
    assert key[..|prefix|] == p;
    assert key[|prefix|..|prefix| + TIME_LEN] == ToBe(time, TIME_LEN);
    Pow256Of8();
    ToBeValue(time, TIME_LEN);
  }

  /** Handshakes and payments, by receiver and by sender. */
  lemma AddressScans(x: Sighting, sender: Address, version: byte, address: Address, from: nat)
    requires ValidSighting(x) && x.time < U64_LIMIT && |sender| == |address| == ADDRESS_LEN
    ensures Selected(ReceiverKey(x, version), address, from)
         <==> x.receiver == address && from <= x.time < U64_LIMIT - 1
    ensures Selected(SenderKey(x, sender, version), address, from)
         <==> sender == address && from <= x.time < U64_LIMIT - 1
  {
    var r1 := x.block.bytes + Tail(x, version);
    assert ReceiverKey(x, version) == x.receiver + (ToBe(x.time, 8) + r1);
    SelectedFields(x.receiver, x.time, r1, address, from);
    var r2 := x.block.bytes + x.receiver + Tail(x, version);
    assert SenderKey(x, sender, version) == sender + (ToBe(x.time, 8) + r2);
    SelectedFields(sender, x.time, r2, address, from);
  }

  function ByteAt(s: Bytes, i: nat): byte
  {
    if i < |s| then s[i] else 0
  }

  /** What padding identifies: strings that agree on their first `n` bytes, missing
      bytes read as zero.  Short strings not ending in zero are kept apart. */
  lemma PaddedAlike(a: Bytes, b: Bytes, n: nat)
    ensures Padded(a, n) == Padded(b, n) <==> forall i :: 0 <= i < n ==> ByteAt(a, i) == ByteAt(b, i)
    ensures |a| <= n && |b| <= n && (a != [] ==> a[|a| - 1] != 0) && (b != [] ==> b[|b| - 1] != 0) ==>
              (Padded(a, n) == Padded(b, n) <==> a == b)
  {
    assert forall i :: 0 <= i < n ==> Padded(a, n)[i] == ByteAt(a, i);
    assert forall i :: 0 <= i < n ==> Padded(b, n)[i] == ByteAt(b, i);
    if Padded(a, n) == Padded(b, n) && |a| <= n && |b| <= n {
      if |a| < |b| { assert Padded(a, n)[|b| - 1] == 0; }
      if |b| < |a| { assert Padded(b, n)[|a| - 1] == 0; }
    }
  }

  /** Contextual messages, by sender and alias. */
  lemma AliasScan(x: Sighting, sender: Address, stored: Bytes, address: Address, alias: Bytes, from: nat)
    requires ValidSighting(x) && x.time < U64_LIMIT && |sender| == |address| == ADDRESS_LEN && |alias| == ALIAS_LEN
    ensures Selected(ContextualKey(x, sender, stored), address + alias, from)
         <==> sender == address && Padded(stored, ALIAS_LEN) == alias && from <= x.time < U64_LIMIT - 1
  {
    var p, rest := sender + Padded(stored, ALIAS_LEN), x.block.bytes + x.receiver + Tail(x, 1);
    assert ContextualKey(x, sender, stored) == p + (ToBe(x.time, 8) + rest);
    SelectedFields(p, x.time, rest, address + alias, from);
    SplitEqual(sender, Padded(stored, ALIAS_LEN), address, alias);
  }

  /** Self-stashes, by owner and scope, and by scope alone; scopes are compared as
      stored, cut or padded to 255 bytes. */
  lemma ScopeScans(x: Sighting, owner: Address, stored: Bytes, address: Address, scope: Bytes, from: nat)
    requires ValidSighting(x) && x.time < U64_LIMIT && |owner| == |address| == ADDRESS_LEN
    ensures Selected(OwnerKey(x, owner, stored), address + Padded(scope, SCOPE_LEN), from)
         <==> owner == address && Padded(stored, SCOPE_LEN) == Padded(scope, SCOPE_LEN) && from <= x.time < U64_LIMIT - 1
    ensures Selected(ScopeKey(x, owner, stored), Padded(scope, SCOPE_LEN), from)
         <==> Padded(stored, SCOPE_LEN) == Padded(scope, SCOPE_LEN) && from <= x.time < U64_LIMIT - 1
  {
    var s := Padded(stored, SCOPE_LEN);
    var r1 := x.block.bytes + Tail(x, 1);
    assert OwnerKey(x, owner, stored) == (owner + s) + (ToBe(x.time, 8) + r1);
    SelectedFields(owner + s, x.time, r1, address + Padded(scope, SCOPE_LEN), from);
    SplitEqual(owner, s, address, Padded(scope, SCOPE_LEN));
    var r2 := owner + (x.block.bytes + Tail(x, 1));
    assert ScopeKey(x, owner, stored) == s + (ToBe(x.time, 8) + r2);
    SelectedFields(s, x.time, r2, Padded(scope, SCOPE_LEN), from);
  }

  lemma SplitEqual(a: Bytes, b: Bytes, c: Bytes, d: Bytes)
    requires |a| == |c|
    ensures a + b == c + d <==> a == c && b == d
  {
    if a + b == c + d {
      assert a == (a + b)[..|a|] && c == (c + d)[..|a|];
      assert b == (a + b)[|a|..] && d == (c + d)[|a|..];
    }
  }

  // ----- keys identify what they were built from -----

  lemma TimeIdentifies(a: nat, b: nat, x: Bytes, y: Bytes)
    requires a < U64_LIMIT && b < U64_LIMIT
    ensures ToBe(a, TIME_LEN) + x == ToBe(b, TIME_LEN) + y <==> a == b && x == y
  {
    SplitEqual(ToBe(a, TIME_LEN), x, ToBe(b, TIME_LEN), y);
    Pow256Of8();
    ToBeValue(a, TIME_LEN);
    ToBeValue(b, TIME_LEN);
  }

  /** Time, block, and whatever follows. */
  lemma WhenIdentifies(x: Sighting, y: Sighting, r: Bytes, r': Bytes)
    requires ValidSighting(x) && ValidSighting(y) && x.time < U64_LIMIT && y.time < U64_LIMIT
    ensures ToBe(x.time, TIME_LEN) + (x.block.bytes + r) == ToBe(y.time, TIME_LEN) + (y.block.bytes + r')
       <==> x.time == y.time && x.block == y.block && r == r'
  {
    TimeIdentifies(x.time, y.time, x.block.bytes + r, y.block.bytes + r');
    SplitEqual(x.block.bytes, r, y.block.bytes, r');
  }

  lemma TailIdentifies(x: Sighting, y: Sighting, version: byte, version': byte)
    ensures Tail(x, version) == Tail(y, version') <==> version == version' && x.tx == y.tx
  {
    SplitEqual([version], x.tx.bytes, [version'], y.tx.bytes);
  }

  /** Two handshakes or payments share a key exactly when they agree on every field
      of it: no message overwrites another. */
  lemma AddressKeysIdentify(x: Sighting, y: Sighting, s: Address, s': Address, version: byte, version': byte)
    requires ValidSighting(x) && ValidSighting(y) && x.time < U64_LIMIT && y.time < U64_LIMIT
    requires |s| == |s'| == ADDRESS_LEN
    ensures ReceiverKey(x, version) == ReceiverKey(y, version') <==>
              x.receiver == y.receiver && x.time == y.time && x.block == y.block && version == version' && x.tx == y.tx
    ensures SenderKey(x, s, version) == SenderKey(y, s', version') <==>
              && s == s' && x.time == y.time && x.block == y.block && x.receiver == y.receiver
              && version == version' && x.tx == y.tx
  {
    var t, t' := Tail(x, version), Tail(y, version');
    TailIdentifies(x, y, version, version');
    ReceiverKeyParts(x, version);
    ReceiverKeyParts(y, version');
    WhenIdentifies(x, y, t, t');
    SplitEqual(x.receiver, ToBe(x.time, TIME_LEN) + (x.block.bytes + t), y.receiver, ToBe(y.time, TIME_LEN) + (y.block.bytes + t'));
    SenderKeyParts(x, s, version);
    SenderKeyParts(y, s', version');
    WhenIdentifies(x, y, x.receiver + t, y.receiver + t');
    SplitEqual(x.receiver, t, y.receiver, t');
    SplitEqual(s, ToBe(x.time, TIME_LEN) + (x.block.bytes + (x.receiver + t)),
               s', ToBe(y.time, TIME_LEN) + (y.block.bytes + (y.receiver + t')));
  }

  lemma ReceiverKeyParts(x: Sighting, version: byte)
    ensures ReceiverKey(x, version) == x.receiver + (ToBe(x.time, TIME_LEN) + (x.block.bytes + Tail(x, version)))
  {
    assert ToBe(x.time, 8) + x.block.bytes + Tail(x, version) == ToBe(x.time, TIME_LEN) + (x.block.bytes + Tail(x, version));
  }

  lemma SenderKeyParts(x: Sighting, s: Address, version: byte)
    ensures SenderKey(x, s, version)
         == s + (ToBe(x.time, TIME_LEN) + (x.block.bytes + (x.receiver + Tail(x, version))))
  {
    assert ToBe(x.time, 8) + x.block.bytes + x.receiver + Tail(x, version)
        == ToBe(x.time, TIME_LEN) + (x.block.bytes + (x.receiver + Tail(x, version)));
  }

  /** The same for contextual messages, the alias up to padding. */
  lemma ContextualKeysIdentify(x: Sighting, y: Sighting, s: Address, s': Address, alias: Bytes, alias': Bytes)
    requires ValidSighting(x) && ValidSighting(y) && x.time < U64_LIMIT && y.time < U64_LIMIT
    requires |s| == |s'| == ADDRESS_LEN
    ensures ContextualKey(x, s, alias) == ContextualKey(y, s', alias') <==>
              && s == s' && Padded(alias, ALIAS_LEN) == Padded(alias', ALIAS_LEN) && x.time == y.time
              && x.block == y.block && x.receiver == y.receiver && x.tx == y.tx
  {
    var r, r' := x.receiver + Tail(x, 1), y.receiver + Tail(y, 1);
    var w, w' := ToBe(x.time, TIME_LEN) + (x.block.bytes + r), ToBe(y.time, TIME_LEN) + (y.block.bytes + r');
    assert ContextualKey(x, s, alias) == s + (Padded(alias, ALIAS_LEN) + w);
    assert ContextualKey(y, s', alias') == s' + (Padded(alias', ALIAS_LEN) + w');
    SplitEqual(s, Padded(alias, ALIAS_LEN) + w, s', Padded(alias', ALIAS_LEN) + w');
    SplitEqual(Padded(alias, ALIAS_LEN), w, Padded(alias', ALIAS_LEN), w');
    WhenIdentifies(x, y, r, r');
    SplitEqual(x.receiver, Tail(x, 1), y.receiver, Tail(y, 1));
    TailIdentifies(x, y, 1, 1);
  }

  /** The same for self-stashes by owner, the scope up to padding. */
  lemma OwnerKeysIdentify(x: Sighting, y: Sighting, s: Address, s': Address, scope: Bytes, scope': Bytes)
    requires ValidSighting(x) && ValidSighting(y) && x.time < U64_LIMIT && y.time < U64_LIMIT
    requires |s| == |s'| == ADDRESS_LEN
    ensures OwnerKey(x, s, scope) == OwnerKey(y, s', scope') <==>
              && s == s' && Padded(scope, SCOPE_LEN) == Padded(scope', SCOPE_LEN)
              && x.time == y.time && x.block == y.block && x.tx == y.tx
  {
    var p, p' := Padded(scope, SCOPE_LEN), Padded(scope', SCOPE_LEN);
    var t, t' := Tail(x, 1), Tail(y, 1);
    TailIdentifies(x, y, 1, 1);
    var w, w' := ToBe(x.time, TIME_LEN) + (x.block.bytes + t), ToBe(y.time, TIME_LEN) + (y.block.bytes + t');
    assert OwnerKey(x, s, scope) == s + (p + w) && OwnerKey(y, s', scope') == s' + (p' + w');
    SplitEqual(s, p + w, s', p' + w');
    SplitEqual(p, w, p', w');
    WhenIdentifies(x, y, t, t');
  }

  /** And by scope. */
  lemma ScopeKeysIdentify(x: Sighting, y: Sighting, s: Address, s': Address, scope: Bytes, scope': Bytes)
    requires ValidSighting(x) && ValidSighting(y) && x.time < U64_LIMIT && y.time < U64_LIMIT
    requires |s| == |s'| == ADDRESS_LEN
    ensures ScopeKey(x, s, scope) == ScopeKey(y, s', scope') <==>
              && s == s' && Padded(scope, SCOPE_LEN) == Padded(scope', SCOPE_LEN)
              && x.time == y.time && x.block == y.block && x.tx == y.tx
  {
    var p, p' := Padded(scope, SCOPE_LEN), Padded(scope', SCOPE_LEN);
    var t, t' := Tail(x, 1), Tail(y, 1);
    TailIdentifies(x, y, 1, 1);
    var u, u' := s + (x.block.bytes + t), s' + (y.block.bytes + t');
    ScopeKeyParts(x, s, scope);
    ScopeKeyParts(y, s', scope');
    SplitEqual(p, ToBe(x.time, TIME_LEN) + u, p', ToBe(y.time, TIME_LEN) + u');
    TimeIdentifies(x.time, y.time, u, u');
    SplitEqual(s, x.block.bytes + t, s', y.block.bytes + t');
    SplitEqual(x.block.bytes, t, y.block.bytes, t');
  }

  lemma ScopeKeyParts(x: Sighting, s: Address, scope: Bytes)
    ensures ScopeKey(x, s, scope)
         == Padded(scope, SCOPE_LEN) + (ToBe(x.time, TIME_LEN) + (s + (x.block.bytes + Tail(x, 1))))
  {
  }
}
