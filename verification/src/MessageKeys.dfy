/** What the message indexes hold, in terms of the transactions themselves: which
    partition, and which bytes where in the key. */
module MessageKeys {
  import opened Bytes
  import opened AcceptanceLog
  import opened MessageIndexes
  import opened DeferredReplay
  import Parser

  // ----- keys field by field -----

  predicate IsReceiverKey(k: Bytes, receiver: Address, time: nat, block: Hash, version: byte, tx: TxId)
  {
    && |k| == 107 && k[..34] == receiver && BeValue(k[34..42]) == time && k[42..74] == block.bytes
    && k[74] == version && k[75..] == tx.bytes
  }

  predicate IsSenderKey(k: Bytes, sender: Address, time: nat, block: Hash, receiver: Address, version: byte, tx: TxId)
  {
    && |k| == 141 && k[..34] == sender && BeValue(k[34..42]) == time && k[42..74] == block.bytes
    && k[74..108] == receiver && k[108] == version && k[109..] == tx.bytes
  }

  /** `field` holds `s`, cut or filled up with zeros. */
  predicate Holds(field: Bytes, s: Bytes)
  {
    forall i :: 0 <= i < |field| ==> field[i] == if i < |s| then s[i] else 0
  }

  predicate IsContextualKey(k: Bytes, sender: Address, alias: Bytes, time: nat, block: Hash, receiver: Address, tx: TxId)
  {
    && |k| == 157 && k[..34] == sender && Holds(k[34..50], alias) && BeValue(k[50..58]) == time
    && k[58..90] == block.bytes && k[90..124] == receiver && k[124] == 1 && k[125..] == tx.bytes
  }

  predicate IsOwnerKey(k: Bytes, owner: Address, scope: Bytes, time: nat, block: Hash, tx: TxId)
  {
    && |k| == 362 && k[..34] == owner && Holds(k[34..289], scope) && BeValue(k[289..297]) == time
    && k[297..329] == block.bytes && k[329] == 1 && k[330..] == tx.bytes
  }

  predicate IsScopeKey(k: Bytes, owner: Address, scope: Bytes, time: nat, block: Hash, tx: TxId)
  {
    && |k| == 362 && Holds(k[..255], scope) && BeValue(k[255..263]) == time && k[263..297] == owner
    && k[297..329] == block.bytes && k[329] == 1 && k[330..] == tx.bytes
  }

  lemma TimeField(k: Bytes, time: nat)
    requires |k| == 8 && time < U64_LIMIT
    ensures k == ToBe(time, 8) <==> BeValue(k) == time
  {
    Pow256Of8();
    ToBeValue(time, 8);
    ValueToBe(k);
  }

  lemma PaddedField(k: Bytes, s: Bytes, n: nat)
    requires |k| == n
    ensures k == Padded(s, n) <==> Holds(k, s)
  {
    var p := Padded(s, n);
    assert forall i :: 0 <= i < n ==> p[i] == if i < |s| then s[i] else 0;
    if Holds(k, s) { assert forall i :: 0 <= i < n ==> k[i] == p[i]; }
  }

  predicate Sized(x: Sighting)
  {
    ValidSighting(x) && x.time < U64_LIMIT
  }

  lemma ReceiverFields(x: Sighting, version: byte, k: Bytes)
    requires Sized(x)
    ensures k == ReceiverKey(x, version) <==> IsReceiverKey(k, x.receiver, x.time, x.block, version, x.tx)
  {
    var key := ReceiverKey(x, version);
    TimeField(ToBe(x.time, 8), x.time);
    assert key[..34] == x.receiver && key[34..42] == ToBe(x.time, 8) && key[42..74] == x.block.bytes;
    assert key[74] == version && key[75..] == x.tx.bytes;
    if IsReceiverKey(k, x.receiver, x.time, x.block, version, x.tx) {
      TimeField(k[34..42], x.time);
      Parts5(k, key, 34, 42, 74);
    }
  }

  /** Two strings alike on consecutive parts, the part at `c` being one byte, are alike. */
  lemma Parts5(k: Bytes, key: Bytes, a: nat, b: nat, c: nat)
    requires |k| == |key| && a <= b <= c < |k|
    requires k[..a] == key[..a] && k[a..b] == key[a..b] && k[b..c] == key[b..c] && k[c] == key[c] && k[c + 1..] == key[c + 1..]
    ensures k == key
  {
    assert k == k[..a] + k[a..b] + k[b..c] + [k[c]] + k[c + 1..];
    assert key == key[..a] + key[a..b] + key[b..c] + [key[c]] + key[c + 1..];
  }

  lemma SenderFields(x: Sighting, s: Address, version: byte, k: Bytes)
    requires Sized(x) && |s| == ADDRESS_LEN
    ensures k == SenderKey(x, s, version) <==> IsSenderKey(k, s, x.time, x.block, x.receiver, version, x.tx)
  {
    var key := SenderKey(x, s, version);
    TimeField(ToBe(x.time, 8), x.time);
    assert key[..34] == s && key[34..42] == ToBe(x.time, 8) && key[42..74] == x.block.bytes && key[74..108] == x.receiver;
    assert key[108] == version && key[109..] == x.tx.bytes;
    if IsSenderKey(k, s, x.time, x.block, x.receiver, version, x.tx) {
      TimeField(k[34..42], x.time);
      Joins(k, key, 42, 74, 108);
      Parts5(k, key, 34, 42, 108);
    }
  }

  lemma Joins(k: Bytes, key: Bytes, a: nat, b: nat, c: nat)
    requires |k| == |key| && a <= b <= c <= |k| && k[a..b] == key[a..b] && k[b..c] == key[b..c]
    ensures k[a..c] == key[a..c]
  {
    assert k[a..c] == k[a..b] + k[b..c] && key[a..c] == key[a..b] + key[b..c];
  }

  lemma ContextualFields(x: Sighting, s: Address, alias: Bytes, k: Bytes)
    requires Sized(x) && |s| == ADDRESS_LEN
    ensures k == ContextualKey(x, s, alias) <==> IsContextualKey(k, s, alias, x.time, x.block, x.receiver, x.tx)
  {
    var key := ContextualKey(x, s, alias);
    TimeField(ToBe(x.time, 8), x.time);
    PaddedField(Padded(alias, 16), alias, 16);
    assert key[..34] == s && key[34..50] == Padded(alias, 16) && key[50..58] == ToBe(x.time, 8);
    assert key[58..90] == x.block.bytes && key[90..124] == x.receiver && key[124] == 1 && key[125..] == x.tx.bytes;
    if IsContextualKey(k, s, alias, x.time, x.block, x.receiver, x.tx) {
      TimeField(k[50..58], x.time);
      PaddedField(k[34..50], alias, 16);
      Joins(k, key, 34, 50, 58);
      Joins(k, key, 58, 90, 124);
      Parts5(k, key, 34, 58, 124);
    }
  }

  lemma OwnerFields(x: Sighting, owner: Address, scope: Bytes, k: Bytes)
    requires Sized(x) && |owner| == ADDRESS_LEN
    ensures k == OwnerKey(x, owner, scope) <==> IsOwnerKey(k, owner, scope, x.time, x.block, x.tx)
  {
    var key := OwnerKey(x, owner, scope);
    TimeField(ToBe(x.time, 8), x.time);
    PaddedField(Padded(scope, 255), scope, 255);
    assert key[..34] == owner && key[34..289] == Padded(scope, 255) && key[289..297] == ToBe(x.time, 8);
    assert key[297..329] == x.block.bytes && key[329] == 1 && key[330..] == x.tx.bytes;
    if IsOwnerKey(k, owner, scope, x.time, x.block, x.tx) {
      TimeField(k[289..297], x.time);
      PaddedField(k[34..289], scope, 255);
      Joins(k, key, 289, 297, 329);
      Parts5(k, key, 34, 289, 329);
    }
  }

  lemma ScopeFields(x: Sighting, owner: Address, scope: Bytes, k: Bytes)
    requires Sized(x) && |owner| == ADDRESS_LEN
    ensures k == ScopeKey(x, owner, scope) <==> IsScopeKey(k, owner, scope, x.time, x.block, x.tx)
  {
    var key := ScopeKey(x, owner, scope);
    TimeField(ToBe(x.time, 8), x.time);
    PaddedField(Padded(scope, 255), scope, 255);
    assert key[..255] == Padded(scope, 255) && key[255..263] == ToBe(x.time, 8) && key[263..297] == owner;
    assert key[297..329] == x.block.bytes && key[329] == 1 && key[330..] == x.tx.bytes;
    if IsScopeKey(k, owner, scope, x.time, x.block, x.tx) {
      TimeField(k[255..263], x.time);
      PaddedField(k[..255], scope, 255);
      Joins(k, key, 263, 297, 329);
      Parts5(k, key, 255, 263, 329);
    }
  }

  // ----- the keys of an operation -----

  /** The keys of an operation that carry its sender. */
  predicate UnderSender(op: Parser.Operation, k: IndexKey, s: Address, receiver: Address, time: nat, block: Hash, tx: TxId)
  {
    match op
    case Untagged(_) => k.index == HandshakeBySender && IsSenderKey(k.key, s, time, block, receiver, 0, tx)
    case HandshakeV2(_) => k.index == HandshakeBySender && IsSenderKey(k.key, s, time, block, receiver, 2, tx)
    case Payment(_) => k.index == PaymentBySender && IsSenderKey(k.key, s, time, block, receiver, 0, tx)
    case Contextual(alias, _) =>
      k.index == ContextualMessageBySender && IsContextualKey(k.key, s, alias, time, block, receiver, tx)
    case SelfStash(key, _) =>
      var scope := if key.Some? then key.value else [];
      || (k.index == SelfStashByOwner && IsOwnerKey(k.key, s, scope, time, block, tx))
      || (k.index == SelfStashByScope && IsScopeKey(k.key, s, scope, time, block, tx))
  }

  /** The key of an operation under its receiver. */
  predicate UnderReceiver(op: Parser.Operation, k: IndexKey, receiver: Address, time: nat, block: Hash, tx: TxId)
  {
    match op
    case Untagged(_) => k.index == HandshakeByReceiver && IsReceiverKey(k.key, receiver, time, block, 0, tx)
    case HandshakeV2(_) => k.index == HandshakeByReceiver && IsReceiverKey(k.key, receiver, time, block, 2, tx)
    case Payment(_) => k.index == PaymentByReceiver && IsReceiverKey(k.key, receiver, time, block, 0, tx)
    case _ => false
  }

  lemma SenderSlotsExactly(op: Parser.Operation, x: Sighting, s: Address, k: IndexKey)
    requires Sized(x) && x.op == KindOf(op) && |s| == ADDRESS_LEN
    ensures k in SenderSlots(x, s) <==> UnderSender(op, k, s, x.receiver, x.time, x.block, x.tx)
  {
    match op {
      case Untagged(_) => SenderFields(x, s, 0, k.key);
      case HandshakeV2(_) => SenderFields(x, s, 2, k.key);
      case Payment(_) => SenderFields(x, s, 0, k.key);
      case Contextual(alias, _) => ContextualFields(x, s, alias, k.key);
      case SelfStash(_, _) =>
        OwnerFields(x, s, Scope(x), k.key);
        ScopeFields(x, s, Scope(x), k.key);
    }
  }

  lemma ReceiverSlotExactly(op: Parser.Operation, x: Sighting, k: IndexKey)
    requires Sized(x) && x.op == KindOf(op)
    ensures ReceiverSlot(x) == Some(k) <==> UnderReceiver(op, k, x.receiver, x.time, x.block, x.tx)
  {
    match op {
      case Untagged(_) => ReceiverFields(x, 0, k.key);
      case HandshakeV2(_) => ReceiverFields(x, 2, k.key);
      case Payment(_) => ReceiverFields(x, 0, k.key);
      case _ =>
    }
  }

  lemma DeferredExactly(op: Parser.Operation, x: Sighting, e: Entry)
    requires Sized(x) && x.op == KindOf(op)
    ensures e in Deferred(x) <==>
              var k := IndexKey(e.index, e.key);
              || (e.action == InsertByKeySender && UnderSender(op, k, Zeros(34), x.receiver, x.time, x.block, x.tx))
              || (e.action == UpdateValueSender && UnderReceiver(op, k, x.receiver, x.time, x.block, x.tx))
  {
    SenderSlotsExactly(op, x, DefaultAddress(), IndexKey(e.index, e.key));
    ReceiverSlotExactly(op, x, IndexKey(e.index, e.key));
    DeferredAreSlots(x, e);
  }

  lemma DeferredAreSlots(x: Sighting, e: Entry)
    ensures e in Deferred(x) <==>
              || (e.action == InsertByKeySender && IndexKey(e.index, e.key) in SenderSlots(x, DefaultAddress()))
              || (e.action == UpdateValueSender && ReceiverSlot(x) == Some(IndexKey(e.index, e.key)))
  {
  }

  // ----- one transaction -----

  predicate SizedTransaction(tx: Transaction, block: Hash, time: nat)
  {
    && |tx.id.bytes| == 32 && |block.bytes| == 32 && time < U64_LIMIT
    && (tx.outputs != [] && tx.outputs[0].Some? ==> |tx.outputs[0].value| == 34)
  }

  function FirstAddress(tx: Transaction): Address
  {
    if tx.outputs != [] && tx.outputs[0].Some? then tx.outputs[0].value else Zeros(34)
  }

  /** A transaction is a message exactly when its payload parses, its first output, if
      any, has an address, and it has an input. */
  lemma MessageExactly(tx: Transaction, block: Hash, time: nat)
    ensures var h, op := Handled(tx, block, time), Parser.Parse(tx.payload);
            && (h == NotAMessage <==> op.None?)
            && (h == Refused <==> op.Some? && tx.outputs != [] && tx.outputs[0].None?)
            && (h == Panics <==> op.Some? && !(tx.outputs != [] && tx.outputs[0].None?) && tx.inputs == [])
            && (h.Message? ==> h.x.tx == tx.id && h.x.block == block && h.x.time == time && h.x.receiver == FirstAddress(tx)
                               && h.x.op == KindOf(op.value))
  {
  }

  /** What handling a message adds to the indexes keyed by sender: nothing without a
      known sender, and with one exactly the keys of its operation.  The sender is
      known exactly when the first input spends output 0 of an indexed transaction, and
      is that transaction's receiver. */
  lemma SenderKeysWritten(tx: Transaction, block: Hash, time: nat, ix: Indexes, receivers: map<TxId, Address>, k: IndexKey)
    requires SizedTransaction(tx, block, time) && Handled(tx, block, time).Message?
    requires forall t :: t in receivers ==> |receivers[t]| == 34
    ensures Parser.Parse(tx.payload).Some? && tx.inputs != []
    ensures var o, ix' := tx.inputs[0], Indexed(ix, Handled(tx, block, time).x, SenderOf(receivers, tx));
            k in ix'.bySender <==>
              || k in ix.bySender
              || (o.index == 0 && o.tx in receivers
                  && UnderSender(Parser.Parse(tx.payload).value, k, receivers[o.tx], FirstAddress(tx), time, block, tx.id))
  {
    var x := Handled(tx, block, time).x;
    MessageExactly(tx, block, time);
    var sender := SenderOf(receivers, tx);
    if sender.Some? { SenderSlotsExactly(Parser.Parse(tx.payload).value, x, sender.value, k); }
  }

  /** What it adds to the indexes keyed by receiver: the key of its operation, with the
      sender as its value, or zeros; a value that is not zeros stays. */
  lemma ReceiverKeysWritten(tx: Transaction, block: Hash, time: nat, ix: Indexes, receivers: map<TxId, Address>, k: IndexKey)
    requires SizedTransaction(tx, block, time) && Handled(tx, block, time).Message?
    ensures Parser.Parse(tx.payload).Some? && tx.inputs != []
    ensures var o, ix' := tx.inputs[0], Indexed(ix, Handled(tx, block, time).x, SenderOf(receivers, tx));
            var mine := UnderReceiver(Parser.Parse(tx.payload).value, k, FirstAddress(tx), time, block, tx.id);
            && (k in ix'.byReceiver <==> k in ix.byReceiver || mine)
            && (k in ix.byReceiver && (!mine || ix.byReceiver[k] != Zeros(34)) ==> ix'.byReceiver[k] == ix.byReceiver[k])
            && (mine && (k !in ix.byReceiver || ix.byReceiver[k] == Zeros(34)) ==>
                  ix'.byReceiver[k] == if o.index == 0 && o.tx in receivers then receivers[o.tx] else Zeros(34))
  {
    MessageExactly(tx, block, time);
    ReceiverSlotExactly(Parser.Parse(tx.payload).value, Handled(tx, block, time).x, k);
  }

  /** What it logs: the keys it could not write, when the sender is not known. */
  lemma EntriesLogged(tx: Transaction, block: Hash, time: nat, e: Entry)
    requires SizedTransaction(tx, block, time) && Handled(tx, block, time).Message?
    ensures Parser.Parse(tx.payload).Some?
    ensures e in Deferred(Handled(tx, block, time).x) <==>
              var op, k := Parser.Parse(tx.payload).value, IndexKey(e.index, e.key);
              || (e.action == InsertByKeySender && UnderSender(op, k, Zeros(34), FirstAddress(tx), time, block, tx.id))
              || (e.action == UpdateValueSender && UnderReceiver(op, k, FirstAddress(tx), time, block, tx.id))
  {
    MessageExactly(tx, block, time);
    DeferredExactly(Parser.Parse(tx.payload).value, Handled(tx, block, time).x, e);
  }

  // ----- over runs -----

  /** Input `i` is a message, with these fields. */
  predicate IsMessage(i: Input)
  {
    && i.Transacted? && Parser.Parse(i.tx.payload).Some? && i.tx.inputs != []
    && (i.tx.outputs == [] || i.tx.outputs[0].Some?)
  }

  lemma IsMessageExactly(i: Input)
    ensures IsMessage(i) <==> i.Transacted? && Handled(i.tx, i.block, i.time).Message?
  {
  }

  function ReceiversAfter(receivers: map<TxId, Address>, inputs: seq<Input>): map<TxId, Address>
    decreases |inputs|
  {
    if inputs == [] then receivers
    else if inputs[0].Transacted? then
      ReceiversAfter(Remember(receivers, Handled(inputs[0].tx, inputs[0].block, inputs[0].time)), inputs[1..])
    else ReceiversAfter(receivers, inputs[1..])
  }

  /** Lookups find exactly the messages handled before. */
  lemma {:induction false} RememberedExactly(receivers: map<TxId, Address>, inputs: seq<Input>, t: TxId)
    ensures t in ReceiversAfter(receivers, inputs) <==>
              t in receivers || exists i :: i in inputs && IsMessage(i) && i.tx.id == t
    decreases |inputs|
  {
    if inputs != [] {
      var i, rest := inputs[0], inputs[1..];
      assert forall x :: x in inputs <==> x == i || x in rest;
      IsMessageExactly(i);
      if i.Transacted? {
        RememberedExactly(Remember(receivers, Handled(i.tx, i.block, i.time)), rest, t);
      } else {
        RememberedExactly(receivers, rest, t);
      }
    }
  }

  /** What one input leaves. */
  function After(m: Mem, receivers: map<TxId, Address>, i: Input, senders: Senders): Mem
    requires ReplayableLog(m.log) && ValidInput(i)
  {
    match i
    case Resolution(t) => LazyStep(m, SenderFound(t), senders)
    case Acceptance(t, h) => LazyStep(m, Accepted(t, h), senders)
    case Transacted(tx, block, time) =>
      match Handled(tx, block, time)
      case Message(x) =>
        var sender := SenderOf(receivers, tx);
        Mem(Indexed(m.ix, x, sender), Inserted(m.log, x.tx, if sender.Some? then [] else Deferred(x)))
      case _ => m
  }

  lemma AfterReplayable(m: Mem, receivers: map<TxId, Address>, i: Input, senders: Senders)
    requires ReplayableLog(m.log) && ValidInput(i)
    ensures ReplayableLog(After(m, receivers, i, senders).log)
  {
    match i {
      case Resolution(t) => LazyStepReplayable(m, SenderFound(t), senders);
      case Acceptance(t, h) => LazyStepReplayable(m, Accepted(t, h), senders);
      case Transacted(tx, block, time) =>
        if Handled(tx, block, time).Message? { DeferredShape(Handled(tx, block, time).x); }
    }
  }

  lemma PerformedStep(m: Mem, receivers: map<TxId, Address>, inputs: seq<Input>, senders: Senders)
    requires ReplayableLog(m.log) && AllValid(inputs) && inputs != []
    ensures ValidInput(inputs[0]) && AllValid(inputs[1..])
    ensures ReplayableLog(After(m, receivers, inputs[0], senders).log)
    ensures Performed(m, receivers, inputs, senders)
         == Performed(After(m, receivers, inputs[0], senders), ReceiversAfter(receivers, inputs[..1]), inputs[1..], senders)
  {
    var rest := inputs[1..];
    assert forall k :: 0 <= k < |rest| ==> rest[k] == inputs[k + 1];
    AfterReplayable(m, receivers, inputs[0], senders);
    assert inputs[..1] == [inputs[0]] && [inputs[0]][1..] == [];
  }

  /** What handling each input leaves, with the lookups it makes. */
  lemma {:induction false} PerformedConcat(m: Mem, receivers: map<TxId, Address>, a: seq<Input>, b: seq<Input>, senders: Senders)
    requires ReplayableLog(m.log) && AllValid(a) && AllValid(b) && AllValid(a + b)
    ensures ReplayableLog(Performed(m, receivers, a, senders).log)
    ensures Performed(m, receivers, a + b, senders)
         == Performed(Performed(m, receivers, a, senders), ReceiversAfter(receivers, a), b, senders)
    decreases |a|
  {
    if a == [] {
      assert a + b == b;
    } else {
      assert (a + b)[0] == a[0] && (a + b)[1..] == a[1..] + b && (a + b)[..1] == a[..1];
      PerformedStep(m, receivers, a, senders);
      PerformedStep(m, receivers, a + b, senders);
      var next := ReceiversAfter(receivers, a[..1]);
      assert ReceiversAfter(receivers, a) == ReceiversAfter(next, a[1..]) by {
        assert a[..1] == [a[0]] && [a[0]][1..] == [];
      }
      PerformedConcat(After(m, receivers, a[0], senders), next, a[1..], b, senders);
    }
  }

  /** Every message has an acceptance record, whether its sender was known or not. */
  lemma {:induction false} RecordsExactly(m: Mem, receivers: map<TxId, Address>, inputs: seq<Input>, senders: Senders, t: TxId)
    requires ReplayableLog(m.log) && AllValid(inputs)
    ensures t in Performed(m, receivers, inputs, senders).log <==>
              t in m.log || exists i :: i in inputs && IsMessage(i) && i.tx.id == t
    decreases |inputs|
  {
    if inputs != [] {
      var i, rest := inputs[0], inputs[1..];
      assert forall x :: x in inputs <==> x == i || x in rest;
      IsMessageExactly(i);
      PerformedStep(m, receivers, inputs, senders);
      RecordsExactly(After(m, receivers, i, senders), ReceiversAfter(receivers, inputs[..1]), rest, senders, t);
    }
  }

  // ----- the indexes once everything is resolved -----

  /** Some sighting among the events has the key. */
  ghost predicate SeenUnderSender(es: seq<Event>, k: IndexKey, senders: Senders)
  {
    exists e :: e in es && e.Seen? && k in SenderSlots(e.x, senders(e.x.tx))
  }

  ghost predicate SeenUnderReceiver(es: seq<Event>, k: IndexKey)
  {
    exists e :: e in es && e.Seen? && ReceiverSlot(e.x) == Some(k)
  }

  lemma {:induction false} EagerExactly(ix: Indexes, es: seq<Event>, senders: Senders, k: IndexKey)
    ensures var ix' := EagerRun(ix, es, senders);
            && (k in ix'.bySender <==> k in ix.bySender || SeenUnderSender(es, k, senders))
            && (k in ix'.byReceiver <==> k in ix.byReceiver || SeenUnderReceiver(es, k))
    decreases |es|
  {
    if es != [] {
      EagerExactly(EagerStep(ix, es[0], senders), es[1..], senders, k);
      assert forall e :: e in es <==> e == es[0] || e in es[1..];
    }
  }

  /** Values are the senders of the transactions their keys name. */
  ghost predicate TrueValues(ix: Indexes, senders: Senders)
  {
    forall k :: k in ix.byReceiver ==> |k.key| >= 32 && ix.byReceiver[k] == senders(TxOf(k.key))
  }

  lemma {:induction false} EagerValues(ix: Indexes, es: seq<Event>, senders: Senders)
    requires TrueValues(ix, senders) && forall e :: e in es ==> ValidEvent(e)
    ensures TrueValues(EagerRun(ix, es, senders), senders)
    decreases |es|
  {
    if es != [] {
      assert es[0] in es;
      if es[0].Seen? { DeferredShape(es[0].x); }
      EagerValues(EagerStep(ix, es[0], senders), es[1..], senders);
    }
  }

  lemma {:induction false} EventsAreMessages(receivers: map<TxId, Address>, inputs: seq<Input>, x: Sighting)
    ensures (exists e :: e in Events(receivers, inputs) && e.Seen? && e.x == x) <==>
              exists i :: i in inputs && i.Transacted? && Handled(i.tx, i.block, i.time) == Message(x)
    decreases |inputs|
  {
    if inputs != [] {
      var i, rest := inputs[0], inputs[1..];
      assert forall j :: j in inputs <==> j == i || j in rest;
      if i.Transacted? && Handled(i.tx, i.block, i.time).Message? {
        var r := Handled(i.tx, i.block, i.time);
        var e, later := Seen(r.x, SenderOf(receivers, i.tx).Some?), Events(Remember(receivers, r), rest);
        EventsAreMessages(Remember(receivers, r), rest, x);
        assert forall f :: f in [e] + later <==> f == e || f in later;
      } else {
        EventsAreMessages(receivers, rest, x);
        if !i.Transacted? {
          assert Events(receivers, inputs)[0].Seen? == false;
          assert Events(receivers, inputs)[1..] == Events(receivers, rest);
          assert forall f :: f in Events(receivers, inputs) <==>
            f == Events(receivers, inputs)[0] || f in Events(receivers, rest);
        }
      }
    }
  }

  ghost predicate AllSized(inputs: seq<Input>)
  {
    forall i :: i in inputs && i.Transacted? ==> SizedTransaction(i.tx, i.block, i.time)
  }

  /** The indexes, exactly.  After every run in which all logs have been resolved, a
      key is in an index if and only if some message of the run has it, by what its
      payload parses to, under its first output's address or its true sender, whether
      that sender was found at once or later; and the value under a receiver's key is
      the sender of the transaction the key names. */
  lemma IndexesExactly(inputs: seq<Input>, owners: Senders, senders: Senders, k: IndexKey)
    requires AllValid(inputs) && AllSized(inputs) && TrueSenders(senders)
    requires forall n :: 0 <= n < |inputs| ==> Consistent(inputs[n], owners, senders)
    requires AllResolved(Performed(Mem(Indexes(map[], {}), map[]), map[], inputs, senders).log)
    ensures var ix := Performed(Mem(Indexes(map[], {}), map[]), map[], inputs, senders).ix;
            && (k in ix.bySender <==> exists i :: i in inputs && HasSenderKey(i, k, senders))
            && (k in ix.byReceiver <==> exists i :: i in inputs && HasReceiverKey(i, k))
            && (k in ix.byReceiver ==> |k.key| >= 32 && ix.byReceiver[k] == senders(Hash(k.key[|k.key| - 32..])))
  {
    TransactionsIndexed(inputs, owners, senders);
    EagerContents(inputs, senders, k);
  }

  lemma EagerContents(inputs: seq<Input>, senders: Senders, k: IndexKey)
    requires AllValid(inputs) && AllSized(inputs) && TrueSenders(senders)
    ensures var ix := EagerRun(Indexes(map[], {}), Events(map[], inputs), senders);
            && (k in ix.bySender <==> exists i :: i in inputs && HasSenderKey(i, k, senders))
            && (k in ix.byReceiver <==> exists i :: i in inputs && HasReceiverKey(i, k))
            && (k in ix.byReceiver ==> |k.key| >= 32 && ix.byReceiver[k] == senders(Hash(k.key[|k.key| - 32..])))
  {
    EagerExactly(Indexes(map[], {}), Events(map[], inputs), senders, k);
    SenderSide(inputs, senders, k);
    ReceiverSide(inputs, k);
    EagerTrueValues(inputs, senders, k);
  }

  lemma EagerTrueValues(inputs: seq<Input>, senders: Senders, k: IndexKey)
    requires AllValid(inputs)
    ensures var ix := EagerRun(Indexes(map[], {}), Events(map[], inputs), senders);
            k in ix.byReceiver ==> |k.key| >= 32 && ix.byReceiver[k] == senders(Hash(k.key[|k.key| - 32..]))
  {
    EventsValid(map[], inputs);
    EagerValues(Indexes(map[], {}), Events(map[], inputs), senders);
  }

  ghost predicate HasSenderKey(i: Input, k: IndexKey, senders: Senders)
  {
    IsMessage(i) &&
    UnderSender(Parser.Parse(i.tx.payload).value, k, senders(i.tx.id), FirstAddress(i.tx), i.time, i.block, i.tx.id)
  }

  ghost predicate HasReceiverKey(i: Input, k: IndexKey)
  {
    IsMessage(i) &&
    UnderReceiver(Parser.Parse(i.tx.payload).value, k, FirstAddress(i.tx), i.time, i.block, i.tx.id)
  }

  lemma HasKeys(i: Input, k: IndexKey, senders: Senders)
    requires i.Transacted? && SizedTransaction(i.tx, i.block, i.time) && TrueSenders(senders)
    requires Handled(i.tx, i.block, i.time).Message?
    ensures var x := Handled(i.tx, i.block, i.time).x;
            && (HasSenderKey(i, k, senders) <==> k in SenderSlots(x, senders(x.tx)))
            && (HasReceiverKey(i, k) <==> ReceiverSlot(x) == Some(k))
  {
    var x := Handled(i.tx, i.block, i.time).x;
    MessageExactly(i.tx, i.block, i.time);
    IsMessageExactly(i);
    SenderSlotsExactly(Parser.Parse(i.tx.payload).value, x, senders(x.tx), k);
    ReceiverSlotExactly(Parser.Parse(i.tx.payload).value, x, k);
  }

  lemma SenderSide(inputs: seq<Input>, senders: Senders, k: IndexKey)
    requires AllSized(inputs) && TrueSenders(senders)
    ensures SeenUnderSender(Events(map[], inputs), k, senders) <==>
              exists i :: i in inputs && HasSenderKey(i, k, senders)
  {
    if e :| e in Events(map[], inputs) && e.Seen? && k in SenderSlots(e.x, senders(e.x.tx)) {
      EventsAreMessages(map[], inputs, e.x);
      var i :| i in inputs && i.Transacted? && Handled(i.tx, i.block, i.time) == Message(e.x);
      HasKeys(i, k, senders);
    }
    if i :| i in inputs && HasSenderKey(i, k, senders) {
      IsMessageExactly(i);
      HasKeys(i, k, senders);
      var x := Handled(i.tx, i.block, i.time).x;
      EventsAreMessages(map[], inputs, x);
      var e :| e in Events(map[], inputs) && e.Seen? && e.x == x;
    }
  }

  lemma ReceiverSide(inputs: seq<Input>, k: IndexKey)
    requires AllSized(inputs)
    ensures SeenUnderReceiver(Events(map[], inputs), k) <==>
              exists i :: i in inputs && HasReceiverKey(i, k)
  {
    if e :| e in Events(map[], inputs) && e.Seen? && ReceiverSlot(e.x) == Some(k) {
      EventsAreMessages(map[], inputs, e.x);
      var i :| i in inputs && i.Transacted? && Handled(i.tx, i.block, i.time) == Message(e.x);
      MessageExactly(i.tx, i.block, i.time);
      IsMessageExactly(i);
      ReceiverSlotExactly(Parser.Parse(i.tx.payload).value, e.x, k);
      assert HasReceiverKey(i, k);
    }
    if i :| i in inputs && HasReceiverKey(i, k) {
      IsMessageExactly(i);
      MessageExactly(i.tx, i.block, i.time);
      var x := Handled(i.tx, i.block, i.time).x;
      ReceiverSlotExactly(Parser.Parse(i.tx.payload).value, x, k);
      EventsAreMessages(map[], inputs, x);
      var e :| e in Events(map[], inputs) && e.Seen? && e.x == x;
    }
  }
}
