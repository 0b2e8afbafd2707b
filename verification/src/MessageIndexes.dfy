/** The seven message indexes.  A transaction whose sender is known is indexed at
    once; otherwise the writes that need the sender are logged and replayed when
    the sender's address arrives. */
module MessageIndexes {
  import opened Bytes
  import opened AcceptanceLog
  import Parser

  const ADDRESS_LEN: nat := 34
  const ALIAS_LEN: nat := 16
  const SCOPE_LEN: nat := 255

  /** An address payload: 34 bytes, all zero when the address is not known. */
  type Address = Bytes

  function DefaultAddress(): (r: Address)
    ensures |r| == ADDRESS_LEN
  {
    Zeros(ADDRESS_LEN)
  }

  /** What of a parsed operation the indexes depend on. */
  datatype Kind =
    | Handshake
    | HandshakeV2
    | Contextual(alias: Bytes)
    | Payment
    | SelfStash(scope: Option<Bytes>)

  function KindOf(op: Parser.Operation): Kind
  {
    match op
    case Untagged(_) => Handshake
    case HandshakeV2(_) => Kind.HandshakeV2
    case Contextual(alias, _) => Kind.Contextual(alias)
    case Payment(_) => Kind.Payment
    case SelfStash(key, _) => Kind.SelfStash(key)
  }

  /** One occurrence of a message transaction in a block. */
  datatype Sighting = Sighting(tx: TxId, op: Kind, receiver: Address, time: nat, block: Hash)

  predicate ValidSighting(x: Sighting)
  {
    |x.tx.bytes| == 32 && |x.block.bytes| == 32 && |x.receiver| == ADDRESS_LEN
  }

  /** Truncated or zero-padded to `n` bytes. */
  function Padded(s: Bytes, n: nat): (r: Bytes)
    ensures |r| == n
  {
    if |s| >= n then s[..n] else s + Zeros(n - |s|)
  }

  /** A key of one of the seven indexes. */
  datatype IndexKey = IndexKey(index: Index, key: Bytes)

  // ----- key layouts -----

  function Tail(x: Sighting, version: byte): Bytes
  {
    [version] + x.tx.bytes
  }

  function ReceiverKey(x: Sighting, version: byte): Bytes
  {
    x.receiver + (ToBe(x.time, 8) + x.block.bytes + Tail(x, version))
  }

  function SenderKey(x: Sighting, sender: Address, version: byte): Bytes
  {
    sender + (ToBe(x.time, 8) + x.block.bytes + x.receiver + Tail(x, version))
  }

  function ContextualKey(x: Sighting, sender: Address, alias: Bytes): Bytes
  {
    sender + (Padded(alias, ALIAS_LEN) + ToBe(x.time, 8) + x.block.bytes + x.receiver + Tail(x, 1))
  }

  function OwnerKey(x: Sighting, owner: Address, scope: Bytes): Bytes
  {
    owner + (Padded(scope, SCOPE_LEN) + ToBe(x.time, 8) + x.block.bytes + Tail(x, 1))
  }

  function ScopeKey(x: Sighting, owner: Address, scope: Bytes): Bytes
  {
    (Padded(scope, SCOPE_LEN) + ToBe(x.time, 8)) + owner + (x.block.bytes + Tail(x, 1))
  }

  /** Where the sender's address sits in a key. */
  function SenderOffset(i: Index): nat
  {
    if i == SelfStashByScope then SCOPE_LEN + 8 else 0
  }

  /** The transaction id is the last field of every key. */
  function TxOf(key: Bytes): TxId
    requires |key| >= 32
  {
    Hash(key[|key| - 32..])
  }

  function Scope(x: Sighting): Bytes
  {
    if x.op.SelfStash? && x.op.scope.Some? then x.op.scope.value else []
  }

  // ----- which keys a sighting belongs under -----

  function ReceiverSlot(x: Sighting): Option<IndexKey>
  {
    match x.op
    case Handshake => Some(IndexKey(HandshakeByReceiver, ReceiverKey(x, 0)))
    case HandshakeV2 => Some(IndexKey(HandshakeByReceiver, ReceiverKey(x, 2)))
    case Payment => Some(IndexKey(PaymentByReceiver, ReceiverKey(x, 0)))
    case _ => None
  }

  function SenderSlots(x: Sighting, sender: Address): set<IndexKey>
  {
    match x.op
    case Handshake => {IndexKey(HandshakeBySender, SenderKey(x, sender, 0))}
    case HandshakeV2 => {IndexKey(HandshakeBySender, SenderKey(x, sender, 2))}
    case Payment => {IndexKey(PaymentBySender, SenderKey(x, sender, 0))}
    case Contextual(alias) => {IndexKey(ContextualMessageBySender, ContextualKey(x, sender, alias))}
    case SelfStash(_) =>
      {IndexKey(SelfStashByOwner, OwnerKey(x, sender, Scope(x))),
       IndexKey(SelfStashByScope, ScopeKey(x, sender, Scope(x)))}
  }

  /** The deferred writes of a sighting whose sender is unknown. */
  function Deferred(x: Sighting): seq<Entry>
  {
    var d := DefaultAddress();
    match x.op
    case Handshake =>
      [Entry(HandshakeByReceiver, UpdateValueSender, ReceiverKey(x, 0)),
       Entry(HandshakeBySender, InsertByKeySender, SenderKey(x, d, 0))]
    case HandshakeV2 =>
      [Entry(HandshakeBySender, InsertByKeySender, SenderKey(x, d, 2)),
       Entry(HandshakeByReceiver, UpdateValueSender, ReceiverKey(x, 2))]
    case Payment =>
      [Entry(PaymentByReceiver, UpdateValueSender, ReceiverKey(x, 0)),
       Entry(PaymentBySender, InsertByKeySender, SenderKey(x, d, 0))]
    case Contextual(alias) =>
      [Entry(ContextualMessageBySender, InsertByKeySender, ContextualKey(x, d, alias))]
    case SelfStash(_) =>
      [Entry(SelfStashByOwner, InsertByKeySender, OwnerKey(x, d, Scope(x))),
       Entry(SelfStashByScope, InsertByKeySender, ScopeKey(x, d, Scope(x)))]
  }

  // ----- index contents -----

  /** `byReceiver` holds the two indexes whose values are sender addresses,
      `bySender` the five that are only keys. */
  datatype Indexes = Indexes(byReceiver: map<IndexKey, Address>, bySender: set<IndexKey>)

  /** The first address that is not the default one stays. */
  function PutSender(ix: Indexes, k: IndexKey, sender: Address): Indexes
  {
    if k in ix.byReceiver && ix.byReceiver[k] != DefaultAddress() then ix
    else ix.(byReceiver := ix.byReceiver[k := sender])
  }

  function PutReceiver(ix: Indexes, x: Sighting, sender: Address): Indexes
  {
    match ReceiverSlot(x)
    case None => ix
    case Some(k) => PutSender(ix, k, sender)
  }

  /** The index writes of one sighting. */
  function Indexed(ix: Indexes, x: Sighting, sender: Option<Address>): Indexes
  {
    match sender
    case None => PutReceiver(ix, x, DefaultAddress())
    case Some(s) =>
      var ix1 := PutReceiver(ix, x, s);
      ix1.(bySender := ix1.bySender + SenderSlots(x, s))
  }

  function Fill(e: Entry, sender: Address): IndexKey
    requires WellFormed(e) && SenderOffset(e.index) + ADDRESS_LEN <= |e.key|
  {
    var at := SenderOffset(e.index);
    IndexKey(e.index, e.key[..at] + sender + e.key[at + ADDRESS_LEN..])
  }

  predicate UpdatesValue(i: Index)
  {
    i == HandshakeByReceiver || i == PaymentByReceiver
  }

  /** An entry with the action its index expects. */
  predicate Replayable(e: Entry)
  {
    && WellFormed(e) && SenderOffset(e.index) + ADDRESS_LEN <= |e.key|
    && (e.action == UpdateValueSender <==> UpdatesValue(e.index))
  }

  function Replay(ix: Indexes, e: Entry, sender: Address): Indexes
    requires Replayable(e)
  {
    if e.action == UpdateValueSender then PutSender(ix, IndexKey(e.index, e.key), sender)
    else ix.(bySender := ix.bySender + {Fill(e, sender)})
  }

  function ReplayAll(ix: Indexes, es: seq<Entry>, sender: Address): Indexes
    requires forall e :: e in es ==> Replayable(e)
    decreases |es|
  {
    if es == [] then ix else ReplayAll(Replay(ix, es[0], sender), es[1..], sender)
  }

  // ----- what makes replay right: filling in the sender gives the eager keys -----

  lemma FillSenderKey(a: Address, s: Address, rest: Bytes)
    requires |a| == |s| == ADDRESS_LEN
    ensures (a + rest)[..0] + s + (a + rest)[0 + ADDRESS_LEN..] == s + rest
  {
    assert (a + rest)[ADDRESS_LEN..] == rest;
  }

  lemma FillScopeKey(p: Bytes, a: Address, s: Address, rest: Bytes)
    requires |p| == SCOPE_LEN + 8 && |a| == |s| == ADDRESS_LEN
    ensures (p + a + rest)[..SCOPE_LEN + 8] + s + (p + a + rest)[SCOPE_LEN + 8 + ADDRESS_LEN..] == p + s + rest
  {
    assert (p + a + rest)[SCOPE_LEN + 8 + ADDRESS_LEN..] == rest;
    assert (p + a + rest)[..SCOPE_LEN + 8] == p;
  }

  predicate Inserts(es: seq<Entry>, k: IndexKey, sender: Address)
  {
    exists e :: e in es && InsertsKey(e, k, sender)
  }

  predicate InsertsKey(e: Entry, k: IndexKey, sender: Address)
  {
    Replayable(e) && e.action == InsertByKeySender && Fill(e, sender) == k
  }

  function UpdateOf(k: IndexKey): Entry
  {
    Entry(k.index, UpdateValueSender, k.key)
  }

  lemma DeferredShape(x: Sighting)
    requires ValidSighting(x)
    ensures forall e :: e in Deferred(x) ==> Replayable(e)
    ensures AllWellFormed(Deferred(x))
    ensures ReceiverSlot(x).Some? ==>
              |ReceiverSlot(x).value.key| >= 32 && TxOf(ReceiverSlot(x).value.key) == x.tx
  {
    if ReceiverSlot(x).Some? {
      var k := ReceiverSlot(x).value.key;
      assert k[|k| - 32..] == x.tx.bytes;
    }
  }

  /** Filled with the sender, the deferred insertions of a sighting are the keys
      written at once when the sender is known, and its deferred updates are its
      receiver key. */
  lemma DeferredIsEager(x: Sighting, sender: Address, k: IndexKey)
    requires ValidSighting(x) && |sender| == ADDRESS_LEN
    ensures forall e :: e in Deferred(x) ==> Replayable(e)
    ensures Inserts(Deferred(x), k, sender) <==> k in SenderSlots(x, sender)
    ensures UpdateOf(k) in Deferred(x) <==> ReceiverSlot(x) == Some(k)
  {
    DeferredShape(x);
    var d, es := DefaultAddress(), Deferred(x);
    assert Inserts(es, k, sender) <==> exists i :: 0 <= i < |es| && InsertsKey(es[i], k, sender);
    match x.op {
      case Handshake =>
        FillSenderKey(d, sender, ToBe(x.time, 8) + x.block.bytes + x.receiver + Tail(x, 0));
        assert Fill(es[1], sender) == IndexKey(HandshakeBySender, SenderKey(x, sender, 0));
      case HandshakeV2 =>
        FillSenderKey(d, sender, ToBe(x.time, 8) + x.block.bytes + x.receiver + Tail(x, 2));
        assert Fill(es[0], sender) == IndexKey(HandshakeBySender, SenderKey(x, sender, 2));
      case Payment =>
        FillSenderKey(d, sender, ToBe(x.time, 8) + x.block.bytes + x.receiver + Tail(x, 0));
        assert Fill(es[1], sender) == IndexKey(PaymentBySender, SenderKey(x, sender, 0));
      case Contextual(alias) =>
        FillSenderKey(d, sender, Padded(alias, ALIAS_LEN) + ToBe(x.time, 8) + x.block.bytes + x.receiver + Tail(x, 1));
        assert Fill(es[0], sender) == IndexKey(ContextualMessageBySender, ContextualKey(x, sender, alias));
      case SelfStash(_) =>
        FillSenderKey(d, sender, Padded(Scope(x), SCOPE_LEN) + ToBe(x.time, 8) + x.block.bytes + Tail(x, 1));
        FillScopeKey(Padded(Scope(x), SCOPE_LEN) + ToBe(x.time, 8), d, sender, x.block.bytes + Tail(x, 1));
        assert Fill(es[0], sender) == IndexKey(SelfStashByOwner, OwnerKey(x, sender, Scope(x)));
        assert Fill(es[1], sender) == IndexKey(SelfStashByScope, ScopeKey(x, sender, Scope(x)));
    }
  }
}
