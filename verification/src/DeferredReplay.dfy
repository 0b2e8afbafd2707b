/** Deferred indexing equals eager indexing. */
module DeferredReplay {
  import opened Bytes
  import opened AcceptanceLog
  import opened MessageIndexes
  import Parser

  // ----- transactions of a block -----

  datatype Outpoint = Outpoint(tx: TxId, index: nat)

  /** A transaction; an output's address is missing when its script has none. */
  datatype Transaction = Transaction(id: TxId, payload: Bytes, inputs: seq<Outpoint>, outputs: seq<Option<Address>>)

  /** The receiver is the address of the first output, if there is one at all. */
  function ReceiverOf(tx: Transaction): Option<Address>
  {
    if tx.outputs == [] then Some(DefaultAddress()) else tx.outputs[0]
  }

  /** The sender is known when the first input spends the first output of an indexed
      transaction: it is that transaction's receiver. */
  function SenderOf(receivers: map<TxId, Address>, tx: Transaction): Option<Address>
    requires tx.inputs != []
  {
    var o := tx.inputs[0];
    if o.index == 0 && o.tx in receivers then Some(receivers[o.tx]) else None
  }

  /** `NotAMessage`: no operation parses.  `Refused`: the first output has no
      address.  `Panics`: there is no input. */
  datatype Handling = NotAMessage | Refused | Panics | Message(x: Sighting)

  function Handled(tx: Transaction, block: Hash, time: nat): Handling
  {
    match Parser.Parse(tx.payload)
    case None => NotAMessage
    case Some(op) =>
      if ReceiverOf(tx).None? then Refused
      else if tx.inputs == [] then Panics
      else Message(Sighting(tx.id, KindOf(op), ReceiverOf(tx).value, time, block))
  }

  /** The acceptance key of a message tells later lookups its receiver. */
  function Remember(receivers: map<TxId, Address>, r: Handling): map<TxId, Address>
  {
    if r.Message? then receivers[r.x.tx := r.x.receiver] else receivers
  }

  // ----- the writers as the program has them -----

  class Indexer {
    var ix: Indexes
    /** Header and unresolved entries of every indexed transaction. */
    var log: View
    /** The receivers in their keys. */
    var receivers: map<TxId, Address>

    constructor ()
      ensures ix == Indexes(map[], {}) && log == map[] && receivers == map[]
    {
      ix := Indexes(map[], {});
      log := map[];
      receivers := map[];
    }

    method InsertByReceiver(k: IndexKey, sender: Option<Address>)
      modifies this`ix
      ensures ix == PutSender(old(ix), k, if sender.Some? then sender.value else DefaultAddress())
    {
      var s := if sender.Some? then sender.value else DefaultAddress();
      if k !in ix.byReceiver {
        ix := ix.(byReceiver := ix.byReceiver[k := s]);
      } else if ix.byReceiver[k] == DefaultAddress() {
        ix := ix.(byReceiver := ix.byReceiver[k := s]);
      }
    }

    method InsertBySender(k: IndexKey)
      modifies this`ix
      ensures ix == old(ix).(bySender := old(ix).bySender + {k})
    {
      ix := ix.(bySender := ix.bySender + {k});
    }

    method HandleHandshake(x: Sighting, sender: Option<Address>) returns (entries: seq<Entry>)
      requires x.op == Handshake
      modifies this`ix
      ensures ix == Indexed(old(ix), x, sender)
      ensures entries == if sender.Some? then [] else Deferred(x)
    {
      entries := [];
      var key := ReceiverKey(x, 0);
      InsertByReceiver(IndexKey(HandshakeByReceiver, key), sender);
      var bySender := SenderKey(x, if sender.Some? then sender.value else DefaultAddress(), 0);
      if sender.Some? {
        InsertBySender(IndexKey(HandshakeBySender, bySender));
      } else {
        entries := entries + [Entry(HandshakeByReceiver, UpdateValueSender, key)];
        entries := entries + [Entry(HandshakeBySender, InsertByKeySender, bySender)];
      }
    }

    method HandleHandshakeV2(x: Sighting, sender: Option<Address>) returns (entries: seq<Entry>)
      requires x.op == HandshakeV2
      modifies this`ix
      ensures ix == Indexed(old(ix), x, sender)
      ensures entries == if sender.Some? then [] else Deferred(x)
    {
      entries := [];
      var key := ReceiverKey(x, 2);
      InsertByReceiver(IndexKey(HandshakeByReceiver, key), sender);
      var bySender := SenderKey(x, if sender.Some? then sender.value else DefaultAddress(), 2);
      if sender.Some? {
        InsertBySender(IndexKey(HandshakeBySender, bySender));
      } else {
        entries := entries + [Entry(HandshakeBySender, InsertByKeySender, bySender)];
        entries := entries + [Entry(HandshakeByReceiver, UpdateValueSender, key)];
      }
    }

    method HandleContextualMessage(x: Sighting, sender: Option<Address>) returns (entries: seq<Entry>)
      requires x.op.Contextual?
      modifies this`ix
      ensures ix == Indexed(old(ix), x, sender)
      ensures entries == if sender.Some? then [] else Deferred(x)
    {
      entries := [];
      var key := ContextualKey(x, if sender.Some? then sender.value else DefaultAddress(), x.op.alias);
      if sender.Some? {
        InsertBySender(IndexKey(ContextualMessageBySender, key));
      } else {
        entries := [Entry(ContextualMessageBySender, InsertByKeySender, key)];
      }
    }

    method HandlePayment(x: Sighting, sender: Option<Address>) returns (entries: seq<Entry>)
      requires x.op == Payment
      modifies this`ix
      ensures ix == Indexed(old(ix), x, sender)
      ensures entries == if sender.Some? then [] else Deferred(x)
    {
      entries := [];
      var key := ReceiverKey(x, 0);
      InsertByReceiver(IndexKey(PaymentByReceiver, key), sender);
      var bySender := SenderKey(x, if sender.Some? then sender.value else DefaultAddress(), 0);
      if sender.Some? {
        InsertBySender(IndexKey(PaymentBySender, bySender));
      } else {
        entries := entries + [Entry(PaymentByReceiver, UpdateValueSender, key)];
        entries := entries + [Entry(PaymentBySender, InsertByKeySender, bySender)];
      }
    }

    method HandleSelfStash(x: Sighting, sender: Option<Address>) returns (entries: seq<Entry>)
      requires x.op.SelfStash?
      modifies this`ix
      ensures ix == Indexed(old(ix), x, sender)
      ensures entries == if sender.Some? then [] else Deferred(x)
    {
      entries := [];
      var scope := if x.op.scope.Some? then x.op.scope.value else [];
      var owner := if sender.Some? then sender.value else DefaultAddress();
      var key, keyByScope := OwnerKey(x, owner, scope), ScopeKey(x, owner, scope);
      if sender.Some? {
        InsertBySender(IndexKey(SelfStashByOwner, key));
        InsertBySender(IndexKey(SelfStashByScope, keyByScope));
        assert ix.bySender == old(ix).bySender + SenderSlots(x, owner);
      } else {
        entries := entries + [Entry(SelfStashByOwner, InsertByKeySender, key)];
        entries := entries + [Entry(SelfStashByScope, InsertByKeySender, keyByScope)];
      }
    }

    /** A transaction of a new block, from its payload and its first input and output. */
    method HandleTransaction(tx: Transaction, block: Hash, time: nat) returns (r: Handling)
      modifies this
      ensures r == Handled(tx, block, time)
      ensures !r.Message? ==> unchanged(this)
      ensures r.Message? ==> tx.inputs != [] && ix == Indexed(old(ix), r.x, SenderOf(old(receivers), tx))
      ensures r.Message? ==>
                log == Inserted(old(log), tx.id, if SenderOf(old(receivers), tx).Some? then [] else Deferred(r.x))
      ensures receivers == Remember(old(receivers), r)
    {
      var op := Parser.Parse(tx.payload);
      if op.None? {
        return NotAMessage;
      }
      var receiver := DefaultAddress();
      if tx.outputs != [] {
        if tx.outputs[0].None? {
          return Refused;
        }
        receiver := tx.outputs[0].value;
      }
      if tx.inputs == [] {
        return Panics;
      }
      var outpoint := tx.inputs[0];
      var sender := None;
      if outpoint.index == 0 && outpoint.tx in receivers {
        sender := Some(receivers[outpoint.tx]);
      }
      var x := Sighting(tx.id, KindOf(op.value), receiver, time, block);
      IndexSighting(x, sender);
      receivers := receivers[tx.id := receiver];
      return Message(x);
    }

    /** The writes of one message, by its kind. */
    method IndexSighting(x: Sighting, sender: Option<Address>)
      modifies this`ix, this`log
      ensures ix == Indexed(old(ix), x, sender)
      ensures log == Inserted(old(log), x.tx, if sender.Some? then [] else Deferred(x))
    {
      var entries;
      match x.op {
        case Handshake => entries := HandleHandshake(x, sender);
        case HandshakeV2 => entries := HandleHandshakeV2(x, sender);
        case Contextual(_) => entries := HandleContextualMessage(x, sender);
        case Payment => entries := HandlePayment(x, sender);
        case SelfStash(_) => entries := HandleSelfStash(x, sender);
      }
      log := Inserted(log, x.tx, entries);
    }

    /** The sender's address has arrived: replay the log and clear it.  `ok` is
        false where the program would panic. */
    method HandleSenderAddress(tx: TxId, sender: Address) returns (ok: bool)
      modifies this`ix, this`log
      ensures ok <==> tx in old(log) && forall e :: e in old(log)[tx].entries ==> Replayable(e)
      ensures ok ==> ix == ReplayAll(old(ix), old(log)[tx].entries, sender) && log == Resolved(old(log), tx)
    {
      if tx !in log {
        return false;
      }
      var entries := log[tx].entries;
      log := Resolved(log, tx);
      var n := 0;
      while n < |entries|
        invariant 0 <= n <= |entries| && log == Resolved(old(log), tx)
        invariant forall e :: e in entries[..n] ==> Replayable(e)
        invariant (forall e :: e in entries ==> Replayable(e)) ==>
                    ReplayAll(old(ix), entries, sender) == ReplayRest(ix, entries, n, sender)
      {
        var e := entries[n];
        if !(WellFormed(e) && SenderOffset(e.index) + ADDRESS_LEN <= |e.key|
             && (e.action == UpdateValueSender <==> UpdatesValue(e.index))) {
          assert e in entries;
          return false;
        }
        if e.action == UpdateValueSender {
          InsertByReceiver(IndexKey(e.index, e.key), Some(sender));
        } else {
          InsertBySender(Fill(e, sender));
        }
        assert entries[n..][0] == e && entries[n..][1..] == entries[n + 1..];
        assert entries[..n + 1] == entries[..n] + [e];
        n := n + 1;
      }
      assert entries[..n] == entries;
      return true;
    }
  }

  ghost function ReplayRest(ix: Indexes, es: seq<Entry>, n: nat, sender: Address): Indexes
    requires n <= |es| && forall e :: e in es ==> Replayable(e)
  {
    assert forall e :: e in es[n..] ==> e in es;
    ReplayAll(ix, es[n..], sender)
  }

  // ----- runs -----

  /** `senders` is the true sender of each transaction. */
  datatype Event =
    | Seen(x: Sighting, known: bool)
    | SenderFound(tx: TxId)
    | Accepted(tx: TxId, header: Header)

  datatype Mem = Mem(ix: Indexes, log: View)

  type Senders = TxId -> Address

  ghost predicate TrueSenders(senders: Senders)
  {
    forall t :: |senders(t)| == ADDRESS_LEN && senders(t) != DefaultAddress()
  }

  predicate ValidEvent(e: Event)
  {
    e.Seen? ==> ValidSighting(e.x)
  }

  predicate ReplayableLog(log: View)
  {
    forall t :: t in log ==> forall e :: e in log[t].entries ==> Replayable(e)
  }

  function LazyStep(m: Mem, e: Event, senders: Senders): Mem
    requires ReplayableLog(m.log)
  {
    match e
    case Seen(x, known) =>
      if known then Mem(Indexed(m.ix, x, Some(senders(x.tx))), Inserted(m.log, x.tx, []))
      else Mem(Indexed(m.ix, x, None), Inserted(m.log, x.tx, Deferred(x)))
    case SenderFound(t) =>
      if t !in m.log then m
      else Mem(ReplayAll(m.ix, m.log[t].entries, senders(t)), Resolved(m.log, t))
    case Accepted(t, h) => m.(log := AcceptanceLog.Accepted(m.log, t, h))
  }

  function EagerStep(ix: Indexes, e: Event, senders: Senders): Indexes
  {
    if e.Seen? then Indexed(ix, e.x, Some(senders(e.x.tx))) else ix
  }

  function EagerRun(ix: Indexes, es: seq<Event>, senders: Senders): Indexes
    decreases |es|
  {
    if es == [] then ix else EagerRun(EagerStep(ix, es[0], senders), es[1..], senders)
  }

  lemma LazyStepReplayable(m: Mem, e: Event, senders: Senders)
    requires ReplayableLog(m.log) && ValidEvent(e)
    ensures ReplayableLog(LazyStep(m, e, senders).log)
  {
    if e.Seen? { DeferredShape(e.x); }
  }

  function LazyRun(m: Mem, es: seq<Event>, senders: Senders): Mem
    requires ReplayableLog(m.log) && forall e :: e in es ==> ValidEvent(e)
    decreases |es|
  {
    if es == [] then m
    else
      assert es[0] in es;
      LazyStepReplayable(m, es[0], senders);
      LazyRun(LazyStep(m, es[0], senders), es[1..], senders)
  }

  // ----- the relation between the two -----

  ghost predicate Awaited(log: View, k: IndexKey, senders: Senders)
  {
    exists t :: t in log && Inserts(log[t].entries, k, senders(t))
  }

  ghost predicate KeysRelated(m: Mem, eager: Indexes, senders: Senders)
  {
    forall k :: k in eager.bySender <==> k in m.ix.bySender || Awaited(m.log, k, senders)
  }

  /** A receiver key holds the sender, or the default while an update for it waits. */
  ghost predicate ValueRelated(m: Mem, eager: Indexes, senders: Senders, k: IndexKey)
  {
    && |k.key| >= 32
    && var t := TxOf(k.key);
       && k in eager.byReceiver && k in m.ix.byReceiver
       && eager.byReceiver[k] == senders(t)
       && (|| m.ix.byReceiver[k] == senders(t)
           || (m.ix.byReceiver[k] == DefaultAddress() && t in m.log && UpdateOf(k) in m.log[t].entries))
  }

  ghost predicate ValuesRelated(m: Mem, eager: Indexes, senders: Senders)
  {
    && m.ix.byReceiver.Keys == eager.byReceiver.Keys
    && (forall k :: k in eager.byReceiver ==> ValueRelated(m, eager, senders, k))
  }

  /** Waiting updates sit in the log of the transaction they are about. */
  ghost predicate UpdatesAtHome(m: Mem)
  {
    forall t, e :: t in m.log && e in m.log[t].entries && e.action == UpdateValueSender ==>
      && |e.key| >= 32 && TxOf(e.key) == t && IndexKey(e.index, e.key) in m.ix.byReceiver
  }

  ghost predicate Related(m: Mem, eager: Indexes, senders: Senders)
  {
    ReplayableLog(m.log) && KeysRelated(m, eager, senders) && ValuesRelated(m, eager, senders) && UpdatesAtHome(m)
  }

  /** What replaying a whole log does, key by key. */
  lemma {:induction false} ReplayAllAt(ix: Indexes, es: seq<Entry>, s: Address, k: IndexKey)
    requires forall e :: e in es ==> Replayable(e)
    requires s != DefaultAddress()
    ensures var ix' := ReplayAll(ix, es, s);
            && (k in ix'.bySender <==> k in ix.bySender || Inserts(es, k, s))
            && (k in ix'.byReceiver <==> k in ix.byReceiver || UpdateOf(k) in es)
            && (k in ix.byReceiver && (ix.byReceiver[k] != DefaultAddress() || UpdateOf(k) !in es) ==>
                  ix'.byReceiver[k] == ix.byReceiver[k])
            && (UpdateOf(k) in es && !(k in ix.byReceiver && ix.byReceiver[k] != DefaultAddress()) ==>
                  ix'.byReceiver[k] == s)
    decreases |es|
  {
    if es != [] {
      var e, rest := es[0], es[1..];
      assert forall x :: x in es <==> x == e || x in rest;
      assert Inserts(es, k, s) <==> InsertsKey(e, k, s) || Inserts(rest, k, s) by {
        if Inserts(es, k, s) {
          var x :| x in es && InsertsKey(x, k, s);
          if x != e { assert x in rest; }
        }
        if InsertsKey(e, k, s) { assert e in es; }
      }
      ReplayAllAt(Replay(ix, e, s), rest, s, k);
      assert e.action == UpdateValueSender ==> (UpdateOf(k) == e <==> k == IndexKey(e.index, e.key));
    }
  }

  lemma AwaitedInserted(log: View, t: TxId, es: seq<Entry>, k: IndexKey, senders: Senders)
    ensures Awaited(Inserted(log, t, es), k, senders) <==>
              Awaited(log, k, senders) || Inserts(es, k, senders(t))
  {
    var log' := Inserted(log, t, es);
    var before := if t in log then log[t].entries else [];
    assert log'[t].entries == before + es;
    assert Inserts(before + es, k, senders(t)) <==> Inserts(before, k, senders(t)) || Inserts(es, k, senders(t)) by {
      forall e ensures e in before + es <==> e in before || e in es {}
    }
    if Awaited(log, k, senders) {
      var u :| u in log && Inserts(log[u].entries, k, senders(u));
      assert u in log' && Inserts(log'[u].entries, k, senders(u));
    }
    if Inserts(es, k, senders(t)) { assert t in log' && Inserts(log'[t].entries, k, senders(t)); }
    if Awaited(log', k, senders) {
      var u :| u in log' && Inserts(log'[u].entries, k, senders(u));
      if u != t || Inserts(before, k, senders(t)) { assert u in log && Inserts(log[u].entries, k, senders(u)); }
    }
  }

  lemma AwaitedResolved(log: View, t: TxId, k: IndexKey, senders: Senders)
    requires t in log
    ensures Awaited(log, k, senders) <==>
              Awaited(Resolved(log, t), k, senders) || Inserts(log[t].entries, k, senders(t))
  {
    var log' := Resolved(log, t);
    if Awaited(log, k, senders) {
      var u :| u in log && Inserts(log[u].entries, k, senders(u));
      if u != t { assert u in log' && Inserts(log'[u].entries, k, senders(u)); }
    }
    if Awaited(log', k, senders) {
      var u :| u in log' && Inserts(log'[u].entries, k, senders(u));
      assert u != t && u in log && Inserts(log[u].entries, k, senders(u));
    }
  }

  lemma SeenKeys(m: Mem, eager: Indexes, x: Sighting, known: bool, senders: Senders)
    requires Related(m, eager, senders) && TrueSenders(senders) && ValidSighting(x)
    ensures var e := Seen(x, known);
            KeysRelated(LazyStep(m, e, senders), EagerStep(eager, e, senders), senders)
  {
    var e := Seen(x, known);
    var m', eager' := LazyStep(m, e, senders), EagerStep(eager, e, senders);
    forall k ensures k in eager'.bySender <==> k in m'.ix.bySender || Awaited(m'.log, k, senders) {
      DeferredIsEager(x, senders(x.tx), k);
      AwaitedInserted(m.log, x.tx, if known then [] else Deferred(x), k, senders);
    }
  }

  /** Writing under one receiver key on both sides; `slot` is none for messages
      without a receiver key. */
  lemma PutRelated(m: Mem, eager: Indexes, slot: IndexKey, t: TxId, es: seq<Entry>, known: bool, senders: Senders, k: IndexKey)
    requires Related(m, eager, senders) && TrueSenders(senders)
    requires |slot.key| >= 32 && TxOf(slot.key) == t && (known || UpdateOf(slot) in es)
    requires k in eager.byReceiver || k == slot
    ensures var s := senders(t);
            ValueRelated(Mem(PutSender(m.ix, slot, if known then s else DefaultAddress()), Inserted(m.log, t, es)),
                         PutSender(eager, slot, s), senders, k)
  {
    if k in eager.byReceiver { assert ValueRelated(m, eager, senders, k); }
  }

  lemma LogRelated(m: Mem, eager: Indexes, t: TxId, es: seq<Entry>, senders: Senders, k: IndexKey)
    requires ValueRelated(m, eager, senders, k)
    ensures ValueRelated(m.(log := Inserted(m.log, t, es)), eager, senders, k)
  {
  }

  lemma SameValues(m: Mem, eager: Indexes, m': Mem, eager': Indexes, senders: Senders, k: IndexKey)
    requires ValueRelated(m, eager, senders, k)
    requires m'.ix.byReceiver == m.ix.byReceiver && m'.log == m.log && eager'.byReceiver == eager.byReceiver
    ensures ValueRelated(m', eager', senders, k)
  {
  }

  lemma SeenValue(m: Mem, eager: Indexes, x: Sighting, known: bool, senders: Senders, k: IndexKey)
    requires Related(m, eager, senders) && TrueSenders(senders) && ValidSighting(x)
    requires k in eager.byReceiver || ReceiverSlot(x) == Some(k)
    ensures var e := Seen(x, known);
            ValueRelated(LazyStep(m, e, senders), EagerStep(eager, e, senders), senders, k)
  {
    var e, s := Seen(x, known), senders(x.tx);
    var m', eager' := LazyStep(m, e, senders), EagerStep(eager, e, senders);
    var es := if known then [] else Deferred(x);
    var log' := Inserted(m.log, x.tx, es);
    match ReceiverSlot(x) {
      case None =>
        LogRelated(m, eager, x.tx, es, senders, k);
        SameValues(Mem(m.ix, log'), eager, m', eager', senders, k);
      case Some(slot) =>
        DeferredShape(x);
        DeferredIsEager(x, s, slot);
        PutRelated(m, eager, slot, x.tx, es, known, senders, k);
        var put := PutSender(m.ix, slot, if known then s else DefaultAddress());
        SameValues(Mem(put, log'), PutSender(eager, slot, s), m', eager', senders, k);
    }
  }

  lemma SeenAtHome(m: Mem, x: Sighting, known: bool, senders: Senders)
    requires ReplayableLog(m.log) && UpdatesAtHome(m) && ValidSighting(x) && |senders(x.tx)| == ADDRESS_LEN
    ensures UpdatesAtHome(LazyStep(m, Seen(x, known), senders))
  {
    var m' := LazyStep(m, Seen(x, known), senders);
    DeferredShape(x);
    forall t, u | t in m'.log && u in m'.log[t].entries && u.action == UpdateValueSender
      ensures |u.key| >= 32 && TxOf(u.key) == t && IndexKey(u.index, u.key) in m'.ix.byReceiver
    {
      if !(t in m.log && u in m.log[t].entries) {
        var k := IndexKey(u.index, u.key);
        DeferredIsEager(x, senders(x.tx), k);
        assert u == UpdateOf(k);
      }
    }
  }

  lemma SeenRelated(m: Mem, eager: Indexes, x: Sighting, known: bool, senders: Senders)
    requires Related(m, eager, senders) && TrueSenders(senders) && ValidSighting(x)
    ensures var e := Seen(x, known);
            Related(LazyStep(m, e, senders), EagerStep(eager, e, senders), senders)
  {
    var e := Seen(x, known);
    var m', eager' := LazyStep(m, e, senders), EagerStep(eager, e, senders);
    LazyStepReplayable(m, e, senders);
    SeenKeys(m, eager, x, known, senders);
    SeenAtHome(m, x, known, senders);
    forall k | k in eager'.byReceiver ensures ValueRelated(m', eager', senders, k) {
      SeenValue(m, eager, x, known, senders, k);
    }
  }

  lemma FoundRelated(m: Mem, eager: Indexes, t: TxId, senders: Senders)
    requires Related(m, eager, senders) && TrueSenders(senders)
    ensures Related(LazyStep(m, SenderFound(t), senders), eager, senders)
  {
    if t in m.log {
      var m', es, s := LazyStep(m, SenderFound(t), senders), m.log[t].entries, senders(t);
      forall k ensures k in eager.bySender <==> k in m'.ix.bySender || Awaited(m'.log, k, senders) {
        ReplayAllAt(m.ix, es, s, k);
        AwaitedResolved(m.log, t, k, senders);
      }
      forall k ensures k in m'.ix.byReceiver <==> k in m.ix.byReceiver {
        ReplayAllAt(m.ix, es, s, k);
        if UpdateOf(k) in es { assert k == IndexKey(UpdateOf(k).index, UpdateOf(k).key); }
      }
      forall k | k in eager.byReceiver ensures ValueRelated(m', eager, senders, k) {
        ReplayAllAt(m.ix, es, s, k);
        assert ValueRelated(m, eager, senders, k);
        if UpdateOf(k) in es { assert TxOf(UpdateOf(k).key) == t; }
      }
    }
  }

  lemma AcceptedRelated(m: Mem, eager: Indexes, t: TxId, h: Header, senders: Senders)
    requires Related(m, eager, senders)
    ensures Related(LazyStep(m, Accepted(t, h), senders), eager, senders)
  {
    var m' := LazyStep(m, Accepted(t, h), senders);
    assert forall u :: u in m'.log <==> u in m.log;
    assert forall u :: u in m.log ==> m'.log[u].entries == m.log[u].entries;
    forall k ensures Awaited(m'.log, k, senders) <==> Awaited(m.log, k, senders) {
      if Awaited(m.log, k, senders) {
        var u :| u in m.log && Inserts(m.log[u].entries, k, senders(u));
        assert u in m'.log && Inserts(m'.log[u].entries, k, senders(u));
      }
    }
    forall k | k in eager.byReceiver ensures ValueRelated(m', eager, senders, k) {
      assert ValueRelated(m, eager, senders, k);
    }
  }

  lemma {:induction false} RunRelated(m: Mem, eager: Indexes, es: seq<Event>, senders: Senders)
    requires Related(m, eager, senders) && TrueSenders(senders) && forall e :: e in es ==> ValidEvent(e)
    ensures Related(LazyRun(m, es, senders), EagerRun(eager, es, senders), senders)
    decreases |es|
  {
    if es != [] {
      assert es[0] in es;
      match es[0] {
        case Seen(x, known) => SeenRelated(m, eager, x, known, senders);
        case SenderFound(t) => FoundRelated(m, eager, t, senders);
        case Accepted(t, h) => AcceptedRelated(m, eager, t, h, senders);
      }
      RunRelated(LazyStep(m, es[0], senders), EagerStep(eager, es[0], senders), es[1..], senders);
    }
  }

  predicate AllResolved(log: View)
  {
    forall t :: t in log ==> log[t].entries == []
  }

  /** Deferred equals eager.  However sightings, with the sender known or not,
      acceptance updates and sender resolutions interleave: once every log has been
      resolved, all seven indexes are what the same sightings would have produced
      with every sender known from the start. */
  lemma DeferredEqualsEager(es: seq<Event>, senders: Senders)
    requires TrueSenders(senders) && forall e :: e in es ==> ValidEvent(e)
    requires AllResolved(LazyRun(Mem(Indexes(map[], {}), map[]), es, senders).log)
    ensures LazyRun(Mem(Indexes(map[], {}), map[]), es, senders).ix == EagerRun(Indexes(map[], {}), es, senders)
  {
    var m, eager := LazyRun(Mem(Indexes(map[], {}), map[]), es, senders), EagerRun(Indexes(map[], {}), es, senders);
    RunRelated(Mem(Indexes(map[], {}), map[]), Indexes(map[], {}), es, senders);
    forall k ensures k in eager.bySender <==> k in m.ix.bySender {
      assert !Awaited(m.log, k, senders);
    }
    forall k | k in eager.byReceiver ensures eager.byReceiver[k] == m.ix.byReceiver[k] {
      assert ValueRelated(m, eager, senders, k);
    }
    assert m.ix.byReceiver == eager.byReceiver;
  }

  /** The runs the theorem speaks of: any history, then one resolution for each
      transaction in it. */
  lemma {:induction false} ResolvingEach(m: Mem, ts: seq<TxId>, senders: Senders)
    requires ReplayableLog(m.log) && forall t :: t in m.log && m.log[t].entries != [] ==> t in ts
    ensures AllResolved(LazyRun(m, Resolutions(ts), senders).log)
    decreases |ts|
  {
    if ts != [] {
      var es := Resolutions(ts);
      assert es[0] == SenderFound(ts[0]) && es[1..] == Resolutions(ts[1..]);
      LazyStepReplayable(m, es[0], senders);
      ResolvingEach(LazyStep(m, es[0], senders), ts[1..], senders);
    }
  }

  function Resolutions(ts: seq<TxId>): (r: seq<Event>)
    ensures forall e :: e in r ==> ValidEvent(e)
  {
    seq(|ts|, i requires 0 <= i < |ts| => SenderFound(ts[i]))
  }

  lemma {:induction false} LazyConcat(m: Mem, a: seq<Event>, b: seq<Event>, senders: Senders)
    requires ReplayableLog(m.log) && (forall e :: e in a ==> ValidEvent(e)) && (forall e :: e in b ==> ValidEvent(e))
    ensures ReplayableLog(LazyRun(m, a, senders).log)
    ensures LazyRun(m, a + b, senders) == LazyRun(LazyRun(m, a, senders), b, senders)
    decreases |a|
  {
    if a == [] {
      assert a + b == b;
    } else {
      assert a[0] in a && (a + b)[0] == a[0] && (a + b)[1..] == a[1..] + b;
      LazyStepReplayable(m, a[0], senders);
      LazyConcat(LazyStep(m, a[0], senders), a[1..], b, senders);
    }
  }

  lemma {:induction false} EagerIgnores(ix: Indexes, a: seq<Event>, ts: seq<TxId>, senders: Senders)
    ensures EagerRun(ix, a + Resolutions(ts), senders) == EagerRun(ix, a, senders)
    decreases |a| + |ts|
  {
    if a != [] {
      assert (a + Resolutions(ts))[1..] == a[1..] + Resolutions(ts);
      EagerIgnores(EagerStep(ix, a[0], senders), a[1..], ts, senders);
    } else if ts != [] {
      assert a + Resolutions(ts) == [SenderFound(ts[0])] + Resolutions(ts[1..]);
      assert (a + Resolutions(ts))[1..] == [] + Resolutions(ts[1..]);
      EagerIgnores(ix, [], ts[1..], senders);
    } else {
      assert a + Resolutions(ts) == [];
    }
  }

  /** In particular: any history followed by one resolution of every transaction
      that still has unresolved entries. */
  lemma ResolvedHistory(es: seq<Event>, ts: seq<TxId>, senders: Senders)
    requires TrueSenders(senders) && forall e :: e in es ==> ValidEvent(e)
    requires var log := LazyRun(Mem(Indexes(map[], {}), map[]), es, senders).log;
             forall t :: t in log && log[t].entries != [] ==> t in ts
    ensures LazyRun(Mem(Indexes(map[], {}), map[]), es + Resolutions(ts), senders).ix
         == EagerRun(Indexes(map[], {}), es, senders)
  {
    var m := Mem(Indexes(map[], {}), map[]);
    LazyConcat(m, es, Resolutions(ts), senders);
    ResolvingEach(LazyRun(m, es, senders), ts, senders);
    DeferredEqualsEager(es + Resolutions(ts), senders);
    EagerIgnores(m.ix, es, ts, senders);
  }

  // ----- with senders looked up from earlier transactions -----

  datatype Input =
    | Transacted(tx: Transaction, block: Hash, time: nat)
    | Resolution(t: TxId)
    | Acceptance(t: TxId, header: Header)

  /** What the program does with a run of inputs: a message is indexed under the
      sender its lookup finds, if any. */
  function Performed(m: Mem, receivers: map<TxId, Address>, inputs: seq<Input>, senders: Senders): Mem
    requires ReplayableLog(m.log) && AllValid(inputs)
    decreases |inputs|
  {
    if inputs == [] then m
    else
      match inputs[0]
      case Resolution(t) =>
        LazyStepReplayable(m, SenderFound(t), senders);
        Performed(LazyStep(m, SenderFound(t), senders), receivers, inputs[1..], senders)
      case Acceptance(t, h) =>
        LazyStepReplayable(m, Accepted(t, h), senders);
        Performed(LazyStep(m, Accepted(t, h), senders), receivers, inputs[1..], senders)
      case Transacted(tx, block, time) =>
        match Handled(tx, block, time)
        case Message(x) =>
          var sender := SenderOf(receivers, tx);
          var es := if sender.Some? then [] else Deferred(x);
          assert ValidInput(inputs[0]);
          DeferredShape(x);
          Performed(Mem(Indexed(m.ix, x, sender), Inserted(m.log, x.tx, es)), Remember(receivers, Message(x)),
                    inputs[1..], senders)
        case _ => Performed(m, receivers, inputs[1..], senders)
  }

  predicate ValidInput(i: Input)
  {
    i.Transacted? && Handled(i.tx, i.block, i.time).Message? ==> ValidSighting(Handled(i.tx, i.block, i.time).x)
  }

  predicate AllValid(inputs: seq<Input>)
  {
    forall k :: 0 <= k < |inputs| ==> ValidInput(inputs[k])
  }

  /** A transaction id determines the receiver, and the sender of a message whose
      first input spends a first output is that output's receiver. */
  ghost predicate Consistent(i: Input, owners: Senders, senders: Senders)
  {
    i.Transacted? && Handled(i.tx, i.block, i.time).Message? ==>
      && Handled(i.tx, i.block, i.time).x.receiver == owners(i.tx.id)
      && (i.tx.inputs[0].index == 0 ==> senders(i.tx.id) == owners(i.tx.inputs[0].tx))
  }

  /** The run as events of known and unknown senders. */
  function Events(receivers: map<TxId, Address>, inputs: seq<Input>): seq<Event>
    decreases |inputs|
  {
    if inputs == [] then []
    else
      match inputs[0]
      case Resolution(t) => [SenderFound(t)] + Events(receivers, inputs[1..])
      case Acceptance(t, h) => [Accepted(t, h)] + Events(receivers, inputs[1..])
      case Transacted(tx, block, time) =>
        match Handled(tx, block, time)
        case Message(x) =>
          [Seen(x, SenderOf(receivers, tx).Some?)] + Events(Remember(receivers, Message(x)), inputs[1..])
        case _ => Events(receivers, inputs[1..])
  }

  lemma LazyCons(m: Mem, e: Event, rest: seq<Event>, senders: Senders)
    requires ReplayableLog(m.log) && ValidEvent(e) && forall x :: x in rest ==> ValidEvent(x)
    ensures ReplayableLog(LazyStep(m, e, senders).log)
    ensures LazyRun(m, [e] + rest, senders) == LazyRun(LazyStep(m, e, senders), rest, senders)
  {
    LazyStepReplayable(m, e, senders);
    assert ([e] + rest)[1..] == rest;
  }

  lemma {:induction false} EventsValid(receivers: map<TxId, Address>, inputs: seq<Input>)
    requires AllValid(inputs)
    ensures forall e :: e in Events(receivers, inputs) ==> ValidEvent(e)
    decreases |inputs|
  {
    if inputs != [] {
      var i := inputs[0];
      assert ValidInput(i);
      if i.Transacted? && Handled(i.tx, i.block, i.time).Message? {
        EventsValid(Remember(receivers, Handled(i.tx, i.block, i.time)), inputs[1..]);
      } else {
        EventsValid(receivers, inputs[1..]);
      }
    }
  }

  /** Every sender a lookup finds is the true one. */
  lemma {:induction false} LookupIsTrue(m: Mem, receivers: map<TxId, Address>, inputs: seq<Input>, owners: Senders, senders: Senders)
    requires ReplayableLog(m.log) && AllValid(inputs)
    requires forall k :: 0 <= k < |inputs| ==> Consistent(inputs[k], owners, senders)
    requires forall t :: t in receivers ==> receivers[t] == owners(t)
    ensures forall e :: e in Events(receivers, inputs) ==> ValidEvent(e)
    ensures Performed(m, receivers, inputs, senders) == LazyRun(m, Events(receivers, inputs), senders)
    decreases |inputs|
  {
    EventsValid(receivers, inputs);
    if inputs != [] {
      var i, rest := inputs[0], inputs[1..];
      assert ValidInput(i) && Consistent(i, owners, senders);
      match i {
        case Resolution(t) =>
          EventsValid(receivers, rest);
          LazyCons(m, SenderFound(t), Events(receivers, rest), senders);
          LookupIsTrue(LazyStep(m, SenderFound(t), senders), receivers, rest, owners, senders);
        case Acceptance(t, h) =>
          EventsValid(receivers, rest);
          LazyCons(m, Accepted(t, h), Events(receivers, rest), senders);
          LookupIsTrue(LazyStep(m, Accepted(t, h), senders), receivers, rest, owners, senders);
        case Transacted(tx, block, time) =>
          match Handled(tx, block, time) {
            case Message(x) =>
              var e, next := Seen(x, SenderOf(receivers, tx).Some?), Remember(receivers, Message(x));
              EventsValid(next, rest);
              LazyCons(m, e, Events(next, rest), senders);
              LookupIsTrue(LazyStep(m, e, senders), next, rest, owners, senders);
            case _ => LookupIsTrue(m, receivers, rest, owners, senders);
          }
      }
    }
  }

  /** Deferred equals eager for the transactions themselves, parsed from their
      payloads, each with the sender its lookup finds or none: once every log has
      been resolved, the indexes are those of all messages with their true senders. */
  lemma TransactionsIndexed(inputs: seq<Input>, owners: Senders, senders: Senders)
    requires AllValid(inputs) && TrueSenders(senders)
    requires forall k :: 0 <= k < |inputs| ==> Consistent(inputs[k], owners, senders)
    requires AllResolved(Performed(Mem(Indexes(map[], {}), map[]), map[], inputs, senders).log)
    ensures Performed(Mem(Indexes(map[], {}), map[]), map[], inputs, senders).ix
         == EagerRun(Indexes(map[], {}), Events(map[], inputs), senders)
  {
    LookupIsTrue(Mem(Indexes(map[], {}), map[]), map[], inputs, owners, senders);
    DeferredEqualsEager(Events(map[], inputs), senders);
  }
}
