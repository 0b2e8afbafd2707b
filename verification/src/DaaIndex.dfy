/** The header table and its secondary index ordered by DAA score, through block
    insertion, pruning and the migration of the index's key format. */
module DaaIndex {
  import opened Bytes
  import opened AcceptanceLog
  import ChainStore

  const KEY_LEN: nat := 8 + WORK_LEN + 32
  const KEY_LEN_V0: nat := 8 + 32

  /** Blue work little-endian, as the header table stores it. */
  datatype StoredHeader = StoredHeader(workLe: Bytes, daa: nat)

  function Stored(info: ChainStore.BlockInfo): StoredHeader
  {
    StoredHeader(ToLe(info.work, WORK_LEN), info.daa)
  }

  /** The processor's cache reads back from the header table what block handling
      was given. */
  lemma StoredRoundTrip(info: ChainStore.BlockInfo)
    requires info.work < Pow256(WORK_LEN)
    ensures ChainStore.BlockInfo(Stored(info).daa, LeValue(Stored(info).workLe)) == info
  {
    ToLeValue(info.work, WORK_LEN);
  }

  datatype Tables = Tables(headers: map<Hash, StoredHeader>, index: set<Bytes>)

  function MakeKey(daa: nat, hash: Hash, workBe: Bytes): Bytes
  {
    ToBe(daa, 8) + (workBe + hash.bytes)
  }

  function KeyFor(h: Hash, c: StoredHeader): Bytes
  {
    MakeKey(c.daa, h, Reversed(c.workLe))
  }

  predicate ValidStored(h: Hash, c: StoredHeader)
  {
    |h.bytes| == 32 && |c.workLe| == WORK_LEN && c.daa < U64_LIMIT
  }

  function KeyDaa(k: Bytes): nat
    requires |k| >= 8
  {
    BeValue(k[..8])
  }

  function KeyHash(k: Bytes): Hash
    requires |k| >= 32
  {
    Hash(k[|k| - 32..])
  }

  ghost predicate AllValid(headers: map<Hash, StoredHeader>)
  {
    forall h :: h in headers ==> ValidStored(h, headers[h])
  }

  function Keys(headers: map<Hash, StoredHeader>): set<Bytes>
  {
    set h | h in headers :: KeyFor(h, headers[h])
  }

  /** The index holds exactly the keys of the stored headers. */
  ghost predicate Agree(t: Tables)
  {
    AllValid(t.headers) && t.index == Keys(t.headers)
  }

  lemma KeyFields(h: Hash, c: StoredHeader)
    requires ValidStored(h, c)
    ensures var k := KeyFor(h, c);
            |k| == KEY_LEN && KeyDaa(k) == c.daa && KeyHash(k) == h && k[8..32] == Reversed(c.workLe)
  {
    var k := KeyFor(h, c);
    assert k[..8] == ToBe(c.daa, 8) && k[8..32] == Reversed(c.workLe) && k[|k| - 32..] == h.bytes;
    Pow256Of8();
    ToBeValue(c.daa, 8);
  }

  /** The block behind a key of the index. */
  lemma KeyOwner(t: Tables, k: Bytes)
    requires Agree(t) && k in t.index
    ensures |k| == KEY_LEN && KeyHash(k) in t.headers
    ensures k == KeyFor(KeyHash(k), t.headers[KeyHash(k)]) && KeyDaa(k) == t.headers[KeyHash(k)].daa
  {
    var h :| h in t.headers && k == KeyFor(h, t.headers[h]);
    KeyFields(h, t.headers[h]);
  }

  /** Index agreement as one equivalence: a key is in the index exactly when the
      header table has that block with that work and that score. */
  lemma AgreeMeans(t: Tables, daa: nat, workBe: Bytes, h: Hash)
    requires Agree(t) && daa < U64_LIMIT && |workBe| == WORK_LEN && |h.bytes| == 32
    ensures MakeKey(daa, h, workBe) in t.index
         <==> h in t.headers && t.headers[h] == StoredHeader(Reversed(workBe), daa)
  {
    var c, k := StoredHeader(Reversed(workBe), daa), MakeKey(daa, h, workBe);
    assert Reversed(Reversed(workBe)) == workBe;
    assert k == KeyFor(h, c);
    KeyFields(h, c);
    if k in t.index {
      KeyOwner(t, k);
      KeyFields(h, t.headers[h]);
      assert Reversed(Reversed(t.headers[h].workLe)) == t.headers[h].workLe;
    }
  }

  // ----- single writes -----

  /** Storing a block's header; the index is written only the first time. */
  function Inserted(t: Tables, h: Hash, c: StoredHeader): Tables
  {
    Tables(t.headers[h := c], if h in t.headers then t.index else t.index + {KeyFor(h, c)})
  }

  function WithoutHeader(t: Tables, h: Hash): Tables
  {
    t.(headers := t.headers - {h})
  }

  function WithoutKey(t: Tables, k: Bytes): Tables
  {
    t.(index := t.index - {k})
  }

  lemma InsertAgrees(t: Tables, h: Hash, c: StoredHeader)
    requires Agree(t) && ValidStored(h, c) && (h in t.headers ==> t.headers[h] == c)
    ensures Agree(Inserted(t, h, c))
  {
    if h in t.headers {
      assert t.headers[h := c] == t.headers;
    } else {
      var H := t.headers[h := c];
      forall k | k in Keys(t.headers) + {KeyFor(h, c)} ensures k in Keys(H) {
        if k in Keys(t.headers) {
          var g :| g in t.headers && k == KeyFor(g, t.headers[g]);
          assert g in H && H[g] == t.headers[g];
        } else {
          assert h in H;
        }
      }
      assert Keys(H) == Keys(t.headers) + {KeyFor(h, c)};
    }
  }

  lemma KeysMinus(headers: map<Hash, StoredHeader>, h: Hash)
    requires AllValid(headers) && h in headers
    ensures Keys(headers - {h}) == Keys(headers) - {KeyFor(h, headers[h])}
  {
    forall g | g in headers && g != h ensures KeyFor(g, headers[g]) != KeyFor(h, headers[h]) {
      KeyFields(g, headers[g]);
      KeyFields(h, headers[h]);
    }
    var H := headers - {h};
    forall k | k in Keys(headers) && k != KeyFor(h, headers[h]) ensures k in Keys(H) {
      var g :| g in headers && k == KeyFor(g, headers[g]);
      assert g in H && H[g] == headers[g];
    }
    forall k | k in Keys(H) ensures k in Keys(headers) && k != KeyFor(h, headers[h]) {
      var g :| g in H && k == KeyFor(g, H[g]);
      assert g in headers && g != h;
    }
  }

  lemma RemoveAgrees(t: Tables, h: Hash)
    requires Agree(t) && h in t.headers
    ensures Agree(WithoutKey(WithoutHeader(t, h), KeyFor(h, t.headers[h])))
  {
    KeysMinus(t.headers, h);
  }

  lemma RestoredMeanwhile(t: Tables, h: Hash, c: StoredHeader)
    requires Agree(t) && h in t.headers && t.headers[h] == c
    ensures !Agree(WithoutKey(Inserted(WithoutHeader(t, h), h, c), KeyFor(h, c)))
  {
    var t' := WithoutKey(Inserted(WithoutHeader(t, h), h, c), KeyFor(h, c));
    assert h in t'.headers && KeyFor(h, t'.headers[h]) in Keys(t'.headers);
  }

  lemma OtherMeanwhile(t: Tables, h: Hash, g: Hash, c: StoredHeader)
    requires Agree(t) && h in t.headers && ValidStored(g, c) && (g in t.headers ==> t.headers[g] == c) && g != h
    ensures Agree(WithoutKey(Inserted(WithoutHeader(t, h), g, c), KeyFor(h, t.headers[h])))
  {
    var k := KeyFor(h, t.headers[h]);
    KeyFields(g, c);
    KeyFields(h, t.headers[h]);
    RemoveAgrees(t, h);
    var t1 := WithoutKey(WithoutHeader(t, h), k);
    InsertAgrees(t1, g, c);
    assert WithoutKey(Inserted(WithoutHeader(t, h), g, c), k).index == Inserted(t1, g, c).index;
  }

  // ----- storing and pruning at the same time -----

  /** Storing a block puts its header and then, if there was none, its index key;
      pruning one drops its header and then its index key.  Each is a write of its
      own. */
  datatype Write = PutHeader | PutKey | DropHeader | DropKey

  /** `found`: the header put was there before. */
  datatype Race = Race(tables: Tables, found: bool)

  function Do(r: Race, op: Write, h: Hash, k: Bytes, g: Hash, c: StoredHeader): Race
  {
    match op
    case PutHeader => Race(r.tables.(headers := r.tables.headers[g := c]), g in r.tables.headers)
    case PutKey => if r.found then r else r.(tables := r.tables.(index := r.tables.index + {KeyFor(g, c)}))
    case DropHeader => r.(tables := WithoutHeader(r.tables, h))
    case DropKey => r.(tables := WithoutKey(r.tables, k))
  }

  function DoAll(r: Race, order: seq<Write>, h: Hash, k: Bytes, g: Hash, c: StoredHeader): Race
    decreases |order|
  {
    if order == [] then r else DoAll(Do(r, order[0], h, k, g, c), order[1..], h, k, g, c)
  }

  /** `order` merges `a` and `b`, each in its own order. */
  predicate Merges(order: seq<Write>, a: seq<Write>, b: seq<Write>)
    decreases |order|
  {
    if order == [] then a == [] && b == []
    else
      || (a != [] && order[0] == a[0] && Merges(order[1..], a[1..], b))
      || (b != [] && order[0] == b[0] && Merges(order[1..], a, b[1..]))
  }

  lemma MergeOne(order: seq<Write>, x: Write, b: seq<Write>)
    requires Merges(order, [x], b) && |b| <= 2
    ensures order == [x] + b || (|b| >= 1 && order == [b[0]] + ([x] + b[1..])) || (|b| == 2 && order == b + [x])
  {
    assert [x][1..] == [];
    var rest := order[1..];
    assert order == [order[0]] + rest;
    if order[0] == x && Merges(rest, [], b) {
      MergeNone(rest, b);
    } else {
      var c := b[1..];
      if rest[0] == x && Merges(rest[1..], [], c) {
        MergeNone(rest[1..], c);
        assert rest == [x] + c;
      } else {
        assert c[1..] == [];
        assert rest == [rest[0]] + rest[1..];
        assert rest[1..] == [x] by {
          assert Merges(rest[1..], [x], []);
          assert rest[1..][1..] == [];
        }
      }
    }
  }

  lemma {:induction false} MergeNone(order: seq<Write>, b: seq<Write>)
    requires Merges(order, [], b)
    ensures order == b
    decreases |order|
  {
    if order != [] { MergeNone(order[1..], b[1..]); }
  }

  /** The six orders of two writes and two deletions. */
  lemma SixOrders(order: seq<Write>)
    requires Merges(order, [PutHeader, PutKey], [DropHeader, DropKey])
    ensures || order == [PutHeader, PutKey, DropHeader, DropKey] || order == [PutHeader, DropHeader, PutKey, DropKey]
            || order == [PutHeader, DropHeader, DropKey, PutKey] || order == [DropHeader, PutHeader, PutKey, DropKey]
            || order == [DropHeader, PutHeader, DropKey, PutKey] || order == [DropHeader, DropKey, PutHeader, PutKey]
  {
    var puts, drops := [PutHeader, PutKey], [DropHeader, DropKey];
    var rest := order[1..];
    assert order == [order[0]] + rest;
    assert puts[1..] == [PutKey] && drops[1..] == [DropKey];
    if order[0] == PutHeader {
      MergeOne(rest, PutKey, drops);
      assert [PutKey] + drops == [PutKey, DropHeader, DropKey] && drops + [PutKey] == [DropHeader, DropKey, PutKey];
      assert [drops[0]] + ([PutKey] + drops[1..]) == [DropHeader, PutKey, DropKey];
    } else {
      MergeSwap(rest, puts, [DropKey]);
      MergeOne(rest, DropKey, puts);
      assert [DropKey] + puts == [DropKey, PutHeader, PutKey] && puts + [DropKey] == [PutHeader, PutKey, DropKey];
      assert [puts[0]] + ([DropKey] + puts[1..]) == [PutHeader, DropKey, PutKey];
    }
  }

  lemma {:induction false} MergeSwap(order: seq<Write>, a: seq<Write>, b: seq<Write>)
    requires Merges(order, a, b)
    ensures Merges(order, b, a)
    decreases |order|
  {
    if order != [] {
      if a != [] && order[0] == a[0] && Merges(order[1..], a[1..], b) {
        MergeSwap(order[1..], a[1..], b);
      } else {
        MergeSwap(order[1..], a, b[1..]);
      }
    }
  }

  lemma DoFour(r: Race, o0: Write, o1: Write, o2: Write, o3: Write, h: Hash, k: Bytes, g: Hash, c: StoredHeader)
    ensures DoAll(r, [o0, o1, o2, o3], h, k, g, c)
         == Do(Do(Do(Do(r, o0, h, k, g, c), o1, h, k, g, c), o2, h, k, g, c), o3, h, k, g, c)
  {
    var r1 := Do(r, o0, h, k, g, c);
    var r2 := Do(r1, o1, h, k, g, c);
    var r3 := Do(r2, o2, h, k, g, c);
    assert [o3][1..] == [] && DoAll(r3, [o3], h, k, g, c) == Do(r3, o3, h, k, g, c);
    assert [o2, o3][1..] == [o3] && DoAll(r2, [o2, o3], h, k, g, c) == DoAll(r3, [o3], h, k, g, c);
    assert [o1, o2, o3][1..] == [o2, o3] && DoAll(r1, [o1, o2, o3], h, k, g, c) == DoAll(r2, [o2, o3], h, k, g, c);
    assert [o0, o1, o2, o3][1..] == [o1, o2, o3];
  }

  /** Headers of another block: put and drop commute. */
  lemma OtherHeaders(t: Tables, found: bool, order: seq<Write>, h: Hash, k: Bytes, g: Hash, c: StoredHeader)
    requires g != h && Merges(order, [PutHeader, PutKey], [DropHeader, DropKey])
    ensures DoAll(Race(t, found), order, h, k, g, c).tables.headers == (t.headers - {h})[g := c]
  {
    SixOrders(order);
    DoFour(Race(t, found), order[0], order[1], order[2], order[3], h, k, g, c);
    assert order == [order[0], order[1], order[2], order[3]];
    assert t.headers[g := c] - {h} == (t.headers - {h})[g := c];
  }

  /** So do its index keys. */
  lemma OtherKeys(t: Tables, found: bool, order: seq<Write>, h: Hash, k: Bytes, g: Hash, c: StoredHeader)
    requires g != h && KeyFor(g, c) != k && Merges(order, [PutHeader, PutKey], [DropHeader, DropKey])
    ensures DoAll(Race(t, found), order, h, k, g, c).tables.index
         == (if g in t.headers then t.index - {k} else (t.index - {k}) + {KeyFor(g, c)})
  {
    SixOrders(order);
    DoFour(Race(t, found), order[0], order[1], order[2], order[3], h, k, g, c);
    assert order == [order[0], order[1], order[2], order[3]];
    assert (t.index + {KeyFor(g, c)}) - {k} == (t.index - {k}) + {KeyFor(g, c)};
  }

  /** Another block: every order ends alike. */
  lemma OtherBlock(t: Tables, found: bool, order: seq<Write>, h: Hash, g: Hash, c: StoredHeader)
    requires Agree(t) && h in t.headers && ValidStored(g, c) && g != h
    requires Merges(order, [PutHeader, PutKey], [DropHeader, DropKey])
    ensures var k := KeyFor(h, t.headers[h]);
            DoAll(Race(t, found), order, h, k, g, c).tables == WithoutKey(Inserted(WithoutHeader(t, h), g, c), k)
  {
    var k := KeyFor(h, t.headers[h]);
    KeyFields(g, c);
    KeyFields(h, t.headers[h]);
    OtherHeaders(t, found, order, h, k, g, c);
    OtherKeys(t, found, order, h, k, g, c);
    assert (t.index + {KeyFor(g, c)}) - {k} == (t.index - {k}) + {KeyFor(g, c)};
  }

  /** The same block: header and key end up both there or both gone, except in the
      one order that puts both between the two deletions. */
  lemma SameBlock(t: Tables, found: bool, order: seq<Write>, h: Hash)
    requires Agree(t) && h in t.headers && Merges(order, [PutHeader, PutKey], [DropHeader, DropKey])
    ensures var c := t.headers[h];
            var t' := DoAll(Race(t, found), order, h, KeyFor(h, c), h, c).tables;
            if order == [DropHeader, PutHeader, PutKey, DropKey]
            then t' == WithoutKey(Inserted(WithoutHeader(t, h), h, c), KeyFor(h, c))
            else t' == t || t' == WithoutKey(WithoutHeader(t, h), KeyFor(h, c))
  {
    var c := t.headers[h];
    var k := KeyFor(h, c);
    SixOrders(order);
    DoFour(Race(t, found), order[0], order[1], order[2], order[3], h, k, h, c);
    assert order == [order[0], order[1], order[2], order[3]];
    assert t.headers[h := c] == t.headers && (t.headers - {h})[h := c] == t.headers;
    assert k in t.index;
    assert (t.index - {k}) + {k} == t.index && t.index + {k} == t.index;
  }

  /** Pruning one block while storing another, or the same one: agreement is lost in
      exactly one case, when the block being pruned is stored again with both its
      writes between the two deletions. */
  lemma PruneInterleaved(t: Tables, found: bool, order: seq<Write>, h: Hash, g: Hash, c: StoredHeader)
    requires Agree(t) && h in t.headers && ValidStored(g, c) && (g in t.headers ==> t.headers[g] == c)
    requires Merges(order, [PutHeader, PutKey], [DropHeader, DropKey])
    ensures Agree(DoAll(Race(t, found), order, h, KeyFor(h, t.headers[h]), g, c).tables)
       <==> !(g == h && order == [DropHeader, PutHeader, PutKey, DropKey])
  {
    if g == h {
      SameBlock(t, found, order, h);
      RestoredMeanwhile(t, h, c);
      RemoveAgrees(t, h);
    } else {
      OtherBlock(t, found, order, h, g, c);
      OtherMeanwhile(t, h, g, c);
    }
  }

  // ----- the index scan below a score -----

  lemma BelowIsDaa(k: Bytes, max: nat)
    requires |k| == KEY_LEN && max < U64_LIMIT
    ensures LexLess(k, ToBe(max, 8)) <==> KeyDaa(k) < max
  {
    var d, rest, m := k[..8], k[8..], ToBe(max, 8);
    assert k == d + rest && m == m + [];
    LexConcat(d, m, rest, []);
    Pow256Of8();
    ToBeValue(max, 8);
    LexIsNumeric(d, m);
  }

  /** Everything below the threshold gone, from both tables. */
  function Pruned(t: Tables, threshold: nat): Tables
    requires forall k :: k in t.index ==> |k| >= 8
  {
    Tables(map h | h in t.headers && t.headers[h].daa >= threshold :: t.headers[h],
           set k | k in t.index && KeyDaa(k) >= threshold)
  }

  lemma PrunedAgrees(t: Tables, threshold: nat)
    requires Agree(t)
    ensures forall k :: k in t.index ==> |k| >= 8
    ensures Agree(Pruned(t, threshold))
  {
    forall k | k in t.index ensures |k| >= 8 { KeyOwner(t, k); }
    var t' := Pruned(t, threshold);
    forall k ensures k in t'.index <==> k in Keys(t'.headers) {
      if k in t'.index {
        KeyOwner(t, k);
        assert KeyHash(k) in t'.headers;
      }
      if k in Keys(t'.headers) {
        var h :| h in t'.headers && k == KeyFor(h, t'.headers[h]);
        KeyFields(h, t.headers[h]);
        assert k in t.index;
      }
    }
  }

  class HeaderStore {
    var tables: Tables
    /** Keys of the accepting-block table. */
    var accepting: set<Hash>

    constructor ()
      ensures Agree(tables) && tables == Tables(map[], {}) && accepting == {}
    {
      tables, accepting := Tables(map[], {}), {};
    }

    /** The header part of handling a block. */
    method HandleBlock(h: Hash, info: ChainStore.BlockInfo) returns (alreadyProcessed: bool)
      requires Agree(tables) && |h.bytes| == 32 && info.daa < U64_LIMIT
      requires h in tables.headers ==> tables.headers[h] == Stored(info)
      modifies this`tables
      ensures Agree(tables) && alreadyProcessed == (h in old(tables).headers)
      ensures tables.headers == old(tables).headers[h := Stored(info)]
      ensures MakeKey(info.daa, h, ToBe(info.work, WORK_LEN)) in tables.index
    {
      var c := Stored(info);
      InsertAgrees(tables, h, c);
      alreadyProcessed := h in tables.headers;
      tables := tables.(headers := tables.headers[h := c]);
      assert Reversed(c.workLe) == ToBe(info.work, WORK_LEN);
      if !alreadyProcessed {
        tables := tables.(index := tables.index + {MakeKey(info.daa, h, ToBe(info.work, WORK_LEN))});
      }
    }

    method PruneOne(k: Bytes)
      requires |k| == KEY_LEN
      modifies this
      ensures tables == Dropped(old(tables), k) && accepting == old(accepting) - {KeyHash(k)}
    {
      var h := Hash(k[32..]);
      assert h == KeyHash(k);
      tables := tables.(headers := tables.headers - {h});
      tables := tables.(index := tables.index - {k});
      accepting := accepting - {h};
    }

    /** The loop over the snapshot. */
    method PruneSnapshot(snapshot: seq<Bytes>) returns (pruned: nat)
      requires AllKeys(snapshot)
      modifies this
      ensures tables == DroppedAll(old(tables), snapshot)
      ensures accepting == old(accepting) - Hashes(snapshot) && pruned == |snapshot|
    {
      pruned := 0;
      while pruned < |snapshot|
        invariant 0 <= pruned <= |snapshot|
        invariant DroppedAll(tables, snapshot[pruned..]) == DroppedAll(old(tables), snapshot)
        invariant accepting == old(accepting) - Hashes(snapshot[..pruned])
      {
        var k := snapshot[pruned];
        assert snapshot[pruned..][0] == k && snapshot[pruned..][1..] == snapshot[pruned + 1..];
        HashesSnoc(old(accepting), snapshot[..pruned], k);
        assert snapshot[..pruned + 1] == snapshot[..pruned] + [k];
        PruneOne(k);
        pruned := pruned + 1;
      }
      assert snapshot[..pruned] == snapshot;
    }

    /** Pruning over a snapshot of the index range below the threshold: the blocks
        deeper than the pruning depth, and no others, leave all tables. */
    method Prune(currentDaa: nat, pruningDepth: nat, snapshot: seq<Bytes>) returns (pruned: nat)
      requires Agree(tables) && currentDaa < U64_LIMIT
      requires IsRangeBelow(snapshot, tables.index, Threshold(currentDaa, pruningDepth))
      modifies this
      ensures Agree(tables) && tables == Pruned(old(tables), Threshold(currentDaa, pruningDepth))
      ensures forall h :: h in old(tables).headers ==>
                (h in tables.headers <==> old(tables).headers[h].daa + pruningDepth >= currentDaa)
      ensures forall h :: h in accepting <==>
                h in old(accepting) && (h in old(tables).headers ==> h in tables.headers)
      ensures pruned == |snapshot|
    {
      PrunedHashes(tables, Threshold(currentDaa, pruningDepth), snapshot);
      DroppedRange(tables, Threshold(currentDaa, pruningDepth), snapshot);
      pruned := PruneSnapshot(snapshot);
    }
  }

  /** The hashes in the snapshot are those of the stored blocks below the threshold. */
  lemma PrunedHashes(t: Tables, threshold: nat, snapshot: seq<Bytes>)
    requires Agree(t) && threshold < U64_LIMIT && IsRangeBelow(snapshot, t.index, threshold)
    ensures AllKeys(snapshot)
    ensures forall h :: h in Hashes(snapshot) <==> h in t.headers && t.headers[h].daa < threshold
  {
    RangeLengths(t, threshold, snapshot);
    forall h | h in Hashes(snapshot) ensures h in t.headers && t.headers[h].daa < threshold {
      var k :| k in snapshot && KeyHash(k) == h;
      KeyOwner(t, k);
    }
    forall h | h in t.headers && t.headers[h].daa < threshold ensures h in Hashes(snapshot) {
      var k := KeyFor(h, t.headers[h]);
      KeyFields(h, t.headers[h]);
      assert k in t.index;
    }
  }

  lemma HashesSnoc(all: set<Hash>, keys: seq<Bytes>, k: Bytes)
    requires |k| >= 32
    ensures all - Hashes(keys + [k]) == (all - Hashes(keys)) - {KeyHash(k)}
  {
    assert Hashes(keys + [k]) == Hashes(keys) + {KeyHash(k)};
  }

  /** `snapshot` lists the keys of `index` below the eight bytes of the threshold. */
  ghost predicate IsRangeBelow(snapshot: seq<Bytes>, index: set<Bytes>, threshold: nat)
  {
    && (forall k :: k in snapshot <==> k in index && LexLess(k, ToBe(threshold, 8)))
    && (forall i, j :: 0 <= i < j < |snapshot| ==> snapshot[i] != snapshot[j])
  }

  predicate AllKeys(keys: seq<Bytes>)
  {
    forall i :: 0 <= i < |keys| ==> |keys[i]| == KEY_LEN
  }

  function DroppedAll(t: Tables, keys: seq<Bytes>): Tables
    requires AllKeys(keys)
    decreases |keys|
  {
    if keys == [] then t else DroppedAll(Dropped(t, keys[0]), keys[1..])
  }

  lemma RangeLengths(t: Tables, threshold: nat, snapshot: seq<Bytes>)
    requires Agree(t) && threshold < U64_LIMIT && IsRangeBelow(snapshot, t.index, threshold)
    ensures AllKeys(snapshot)
    ensures forall k :: k in snapshot <==> k in t.index && |k| >= 8 && KeyDaa(k) < threshold
  {
    BelowAll(t, threshold);
    assert forall i :: 0 <= i < |snapshot| ==> snapshot[i] in snapshot;
  }

  lemma {:induction false} DroppedAllAgrees(t: Tables, keys: seq<Bytes>)
    requires Agree(t) && AllKeys(keys) && (forall k :: k in keys ==> k in t.index)
    requires forall i, j :: 0 <= i < j < |keys| ==> keys[i] != keys[j]
    ensures var t' := DroppedAll(t, keys);
            && Agree(t') && Shrunk(t, t')
            && (forall k :: k in t'.index <==> k in t.index && k !in keys)
    decreases |keys|
  {
    if keys != [] {
      var k, rest := keys[0], keys[1..];
      assert k in keys && forall x :: x in rest ==> x in keys;
      DroppedAgrees(t, k);
      forall x | x in rest ensures x != k {
        var i :| 0 <= i < |rest| && rest[i] == x;
        assert keys[i + 1] == x;
      }
      DroppedAllAgrees(Dropped(t, k), rest);
      assert forall x :: x in keys <==> x == k || x in rest;
    }
  }

  lemma DroppedRange(t: Tables, threshold: nat, snapshot: seq<Bytes>)
    requires Agree(t) && threshold < U64_LIMIT && IsRangeBelow(snapshot, t.index, threshold)
    ensures AllKeys(snapshot) && Agree(DroppedAll(t, snapshot))
    ensures forall k :: k in t.index ==> |k| >= 8
    ensures DroppedAll(t, snapshot) == Pruned(t, threshold)
  {
    RangeLengths(t, threshold, snapshot);
    DroppedAllAgrees(t, snapshot);
    BelowAll(t, threshold);
    PrunedIsUnique(t, DroppedAll(t, snapshot), threshold);
  }

  function Threshold(currentDaa: nat, pruningDepth: nat): (r: nat)
    ensures r <= currentDaa
  {
    if currentDaa >= pruningDepth then currentDaa - pruningDepth else 0
  }

  function Dropped(t: Tables, k: Bytes): Tables
    requires |k| >= 32
  {
    WithoutKey(WithoutHeader(t, KeyHash(k)), k)
  }

  lemma DroppedAgrees(t: Tables, k: Bytes)
    requires Agree(t) && k in t.index
    ensures |k| == KEY_LEN && Agree(Dropped(t, k)) && Shrunk(t, Dropped(t, k))
  {
    KeyOwner(t, k);
    RemoveAgrees(t, KeyHash(k));
  }

  function Hashes(keys: seq<Bytes>): set<Hash>
  {
    set k | k in keys && |k| >= 32 :: KeyHash(k)
  }

  /** Headers are only removed. */
  ghost predicate Shrunk(t: Tables, t': Tables)
  {
    t'.headers.Keys <= t.headers.Keys && forall h :: h in t'.headers ==> t'.headers[h] == t.headers[h]
  }

  lemma BelowAll(t: Tables, threshold: nat)
    requires Agree(t) && threshold < U64_LIMIT
    ensures forall k :: k in t.index ==>
              |k| == KEY_LEN && (LexLess(k, ToBe(threshold, 8)) <==> KeyDaa(k) < threshold)
  {
    forall k | k in t.index ensures |k| == KEY_LEN && (LexLess(k, ToBe(threshold, 8)) <==> KeyDaa(k) < threshold) {
      KeyOwner(t, k);
      BelowIsDaa(k, threshold);
    }
  }

  /** An agreeing pair of tables with the surviving keys is the pruned one. */
  lemma PrunedIsUnique(t: Tables, t': Tables, threshold: nat)
    requires Agree(t) && Agree(t') && Shrunk(t, t')
    requires forall k :: k in t'.index <==> k in t.index && |k| >= 8 && KeyDaa(k) >= threshold
    ensures forall k :: k in t.index ==> |k| >= 8
    ensures t' == Pruned(t, threshold)
  {
    PrunedAgrees(t, threshold);
    var p := Pruned(t, threshold);
    assert t'.index == p.index;
    forall h ensures h in t'.headers <==> h in p.headers {
      if h in t.headers {
        var k := KeyFor(h, t.headers[h]);
        KeyFields(h, t.headers[h]);
        if h in t'.headers { assert k in Keys(t'.headers); }
        if h in p.headers {
          assert k in Keys(p.headers);
          KeyOwner(t', k);
        }
      }
    }
    assert t'.headers == p.headers;
  }

  // ----- migration -----

  /** Converts between little- and big-endian by swapping from both ends. */
  method ConvertBlueworkEndianness(bytes: array<byte>)
    requires bytes.Length == WORK_LEN
    modifies bytes
    ensures bytes[..] == Reversed(old(bytes[..]))
  {
    var i := 0;
    while i < 12
      invariant 0 <= i <= 12
      invariant forall j :: 0 <= j < i ==> bytes[j] == old(bytes[23 - j]) && bytes[23 - j] == old(bytes[j])
      invariant forall j :: i <= j < 24 - i ==> bytes[j] == old(bytes[j])
    {
      bytes[i], bytes[23 - i] := bytes[23 - i], bytes[i];
      i := i + 1;
    }
    forall j | 0 <= j < 24 ensures bytes[..][j] == old(bytes[..])[23 - j] {
      if j >= 12 { assert bytes[23 - (23 - j)] == old(bytes[23 - j]); }
    }
  }

  function V0Key(daa: nat, h: Hash): Bytes
  {
    ToBe(daa, 8) + h.bytes
  }

  /** The key that replaces an old one; none when its block has no header. */
  function NewKey(k: Bytes, headers: map<Hash, StoredHeader>): Option<Bytes>
    requires |k| == KEY_LEN_V0
  {
    var h := KeyHash(k);
    if h in headers then Some(MakeKey(KeyDaa(k), h, Reversed(headers[h].workLe))) else None
  }

  function Replaced(index: set<Bytes>, k: Bytes, headers: map<Hash, StoredHeader>): set<Bytes>
    requires |k| == KEY_LEN_V0
  {
    var n := NewKey(k, headers);
    if n.Some? then (index - {k}) + {n.value} else index - {k}
  }

  predicate AllV0(keys: seq<Bytes>)
  {
    forall i :: 0 <= i < |keys| ==> |keys[i]| == KEY_LEN_V0
  }

  /** The first key that does not have the old format is the one at n. */
  predicate StopsAt(keys: seq<Bytes>, n: int)
  {
    0 <= n < |keys| && |keys[n]| != KEY_LEN_V0 && AllV0(keys[..n])
  }

  lemma NextKey(keys: seq<Bytes>, done: nat, n: nat)
    requires done <= n < |keys|
    ensures keys[done..n + 1] == keys[done..n] + [keys[n]] && keys[..n + 1] == keys[..n] + [keys[n]]
    ensures keys[..done] + keys[done..n + 1] == keys[..n + 1]
  {
  }

  lemma LastKeys(keys: seq<Bytes>, done: nat)
    requires done <= |keys|
    ensures keys[..done] + keys[done..|keys|] == keys && keys[..|keys|] == keys
    ensures done == |keys| ==> keys[..done] == keys
  {
  }

  function ReplacedAll(index: set<Bytes>, keys: seq<Bytes>, headers: map<Hash, StoredHeader>): set<Bytes>
    requires AllV0(keys)
    decreases |keys|
  {
    if keys == [] then index else ReplacedAll(Replaced(index, keys[0], headers), keys[1..], headers)
  }

  class Migration {
    var index: set<Bytes>
    const headers: map<Hash, StoredHeader>

    constructor (index: set<Bytes>, headers: map<Hash, StoredHeader>)
      ensures this.index == index && this.headers == headers
    {
      this.index, this.headers := index, headers;
    }

    /** One batch: every old key is replaced by its new one. */
    method MigrateBatch(batch: seq<Bytes>)
      requires AllV0(batch)
      modifies this
      ensures index == ReplacedAll(old(index), batch, headers)
    {
      var n := 0;
      while n < |batch|
        invariant 0 <= n <= |batch|
        invariant ReplacedAll(index, batch[n..], headers) == ReplacedAll(old(index), batch, headers)
      {
        var k := batch[n];
        assert batch[n..][0] == k && batch[n..][1..] == batch[n + 1..];
        index := index - {k};
        var h := Hash(k[8..]);
        assert h == KeyHash(k);
        if h in headers {
          index := index + {MakeKey(KeyDaa(k), h, Reversed(headers[h].workLe))};
        }
        n := n + 1;
      }
    }

    /** The whole migration over a snapshot of the keys, in batches of 512.  It
        fails on the first key that does not have the old format; the full batches
        before it have been migrated then. */
    method MigrateV0V1(keys: seq<Bytes>) returns (ok: bool)
      modifies this
      ensures ok <==> AllV0(keys)
      ensures ok ==> index == ReplacedAll(old(index), keys, headers)
      ensures !ok ==> exists n :: StopsAt(keys, n) && index == ReplacedAll(old(index), keys[..n - n % 512], headers)
    {
      var batch: seq<Bytes> := [];
      var n, done := 0, 0;
      while n < |keys|
        invariant 0 <= done <= n <= |keys| && batch == keys[done..n]
        invariant n - done < 512 && done % 512 == 0
        invariant AllV0(keys[..n]) && AllV0(batch)
        invariant index == ReplacedAll(old(index), keys[..done], headers)
      {
        var k := keys[n];
        if |k| != KEY_LEN_V0 {
          assert done == n - n % 512;
          assert StopsAt(keys, n);
          return false;
        }
        NextKey(keys, done, n);
        batch := batch + [k];
        n := n + 1;
        if |batch| == 512 {
          ReplacedConcat(old(index), keys[..done], batch, headers);
          MigrateBatch(batch);
          batch, done := [], n;
        }
      }
      if batch != [] {
        ReplacedConcat(old(index), keys[..done], batch, headers);
        MigrateBatch(batch);
      }
      LastKeys(keys, done);
      return true;
    }
  }

  lemma {:induction false} ReplacedConcat(index: set<Bytes>, a: seq<Bytes>, b: seq<Bytes>, headers: map<Hash, StoredHeader>)
    requires AllV0(a) && AllV0(b)
    ensures ReplacedAll(index, a + b, headers) == ReplacedAll(ReplacedAll(index, a, headers), b, headers)
    decreases |a|
  {
    if a == [] {
      assert a + b == b;
    } else {
      assert (a + b)[1..] == a[1..] + b;
      ReplacedConcat(Replaced(index, a[0], headers), a[1..], b, headers);
    }
  }

  predicate Makes(k: Bytes, headers: map<Hash, StoredHeader>, x: Bytes)
  {
    |k| == KEY_LEN_V0 && NewKey(k, headers) == Some(x)
  }

  ghost predicate LongWork(headers: map<Hash, StoredHeader>)
  {
    forall h :: h in headers ==> |headers[h].workLe| == WORK_LEN
  }

  /** What the migration leaves, key by key.  It depends on the set of keys only, so
      batches may run in any order. */
  lemma {:induction false} MigratedKeys(index: set<Bytes>, keys: seq<Bytes>, headers: map<Hash, StoredHeader>, x: Bytes)
    requires AllV0(keys) && LongWork(headers)
    ensures x in ReplacedAll(index, keys, headers) <==>
              (x in index && x !in keys) || exists k :: k in keys && Makes(k, headers, x)
    decreases |keys|
  {
    if keys != [] {
      var k, rest := keys[0], keys[1..];
      MigratedKeys(Replaced(index, k, headers), rest, headers, x);
      assert forall y :: y in keys <==> y == k || y in rest;
      assert forall y :: y in keys ==> |y| == KEY_LEN_V0;
      var n := NewKey(k, headers);
      if n.Some? { assert |n.value| != KEY_LEN_V0 && Makes(k, headers, n.value); }
    }
  }

  /** The old index agrees with the header table; keys of blocks without a header
      may be left over. */
  ghost predicate AgreeV0(index: set<Bytes>, headers: map<Hash, StoredHeader>)
  {
    && (forall h :: h in headers ==> ValidStored(h, headers[h]) && V0Key(headers[h].daa, h) in index)
    && (forall k :: k in index ==>
          |k| == KEY_LEN_V0 && (KeyHash(k) in headers ==> k == V0Key(headers[KeyHash(k)].daa, KeyHash(k))))
  }

  lemma V0Fields(daa: nat, h: Hash)
    requires |h.bytes| == 32 && daa < U64_LIMIT
    ensures |V0Key(daa, h)| == KEY_LEN_V0 && KeyDaa(V0Key(daa, h)) == daa && KeyHash(V0Key(daa, h)) == h
  {
    var k := V0Key(daa, h);
    assert k[..8] == ToBe(daa, 8) && k[|k| - 32..] == h.bytes;
    Pow256Of8();
    ToBeValue(daa, 8);
  }

  /** Migration.  From an old index that agrees with the headers, each old key with
      a stored header becomes exactly the key that storing its block writes, every
      other key disappears, and the result agrees with the headers. */
  lemma MigrationAgrees(index: set<Bytes>, keys: seq<Bytes>, headers: map<Hash, StoredHeader>)
    requires AgreeV0(index, headers) && (forall k :: k in keys <==> k in index)
    ensures AllV0(keys) && Agree(Tables(headers, ReplacedAll(index, keys, headers)))
  {
    assert forall i :: 0 <= i < |keys| ==> keys[i] in keys;
    var t := Tables(headers, ReplacedAll(index, keys, headers));
    forall h | h in headers ensures KeyFor(h, headers[h]) in t.index {
      var k := V0Key(headers[h].daa, h);
      V0Fields(headers[h].daa, h);
      assert k in keys && Makes(k, headers, KeyFor(h, headers[h]));
      MigratedKeys(index, keys, headers, KeyFor(h, headers[h]));
    }
    forall x | x in t.index ensures x in Keys(headers) {
      MigratedKeys(index, keys, headers, x);
      var k :| k in keys && Makes(k, headers, x);
      var h := KeyHash(k);
      V0Fields(headers[h].daa, h);
      assert h in headers && x == KeyFor(h, headers[h]);
    }
  }

  // ----- an interrupted migration -----

  ghost predicate Enumerates(listing: seq<Bytes>, index: set<Bytes>)
  {
    forall k :: k in listing <==> k in index
  }

  /** After some keys have been migrated, the migration can be run again exactly when
      none of them belonged to a stored block: a new key among the old ones fails it. */
  lemma RerunsExactly(index: set<Bytes>, done: seq<Bytes>, headers: map<Hash, StoredHeader>, listing: seq<Bytes>)
    requires AgreeV0(index, headers) && (forall k :: k in done ==> k in index) && AllV0(done)
    requires Enumerates(listing, ReplacedAll(index, done, headers))
    ensures AllV0(listing) <==> forall k :: k in done ==> KeyHash(k) !in headers
  {
    if k :| k in done && KeyHash(k) in headers {
      var x := NewKey(k, headers).value;
      MigratedKeys(index, done, headers, x);
      assert Makes(k, headers, x) && x in listing && |x| == KEY_LEN;
      var i :| 0 <= i < |listing| && listing[i] == x;
    } else {
      forall i | 0 <= i < |listing| ensures |listing[i]| == KEY_LEN_V0 {
        assert listing[i] in listing;
        MigratedKeys(index, done, headers, listing[i]);
      }
    }
  }

  /** Interrupted between the deletion of a stored block's old key and the insertion
      of its new one: even when the rerun succeeds, the block is left without a key. */
  lemma InterruptedKeyLost(index: set<Bytes>, h: Hash, headers: map<Hash, StoredHeader>, listing: seq<Bytes>)
    requires AgreeV0(index, headers) && h in headers
    requires Enumerates(listing, index - {V0Key(headers[h].daa, h)})
    ensures AllV0(listing)
    ensures var t := Tables(headers, ReplacedAll(index - {V0Key(headers[h].daa, h)}, listing, headers));
            KeyFor(h, headers[h]) !in t.index && !Agree(t)
  {
    var old0 := V0Key(headers[h].daa, h);
    forall i | 0 <= i < |listing| ensures |listing[i]| == KEY_LEN_V0 {
      assert listing[i] in listing;
    }
    var x := KeyFor(h, headers[h]);
    MigratedKeys(index - {old0}, listing, headers, x);
    KeyFields(h, headers[h]);
    forall k | k in listing ensures !Makes(k, headers, x) {
      if Makes(k, headers, x) { NewKeyHash(k, headers); }
    }
    assert x in Keys(headers);
  }

  lemma NewKeyHash(k: Bytes, headers: map<Hash, StoredHeader>)
    requires |k| == KEY_LEN_V0 && NewKey(k, headers).Some?
    ensures |NewKey(k, headers).value| >= 32 && KeyHash(NewKey(k, headers).value) == KeyHash(k)
  {
    var x, h := NewKey(k, headers).value, KeyHash(k);
    assert x[|x| - 32..] == h.bytes;
  }
}
