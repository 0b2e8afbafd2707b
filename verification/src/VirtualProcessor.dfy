/** The virtual chain processor: its state machine over connections, processed
    blocks, real-time chain changes and the messages of a syncer. */
module VirtualProcessor {
  import opened Bytes
  import opened AcceptanceLog
  import opened ChainStore
  import opened Cursors

  datatype Tip = Tip(hash: Hash, work: nat)

  datatype SyncState =
    | Initial
    | Synced(lastSyncerId: nat, last: Tip)
    | Syncing(last: Tip, syncerId: nat, target: Tip, parked: Option<Vcc>)

  datatype NotificationAck = Continue | Stop

  datatype CompactHeader = CompactHeader(hash: Hash, info: BlockInfo)

  /** `order` lists the cached blocks, oldest first. */
  datatype State = State(
    sync: SyncState,
    order: seq<Hash>,
    cache: Cache,
    queue: seq<Vcc>,
    shuttingDown: bool,
    store: Store,
    cursor: Option<Cursor>)

  /** What a handler does besides changing its state, in the order it does it. */
  datatype Effect =
    | RequestPending(keys: set<PendingKey>)
    | SpawnSyncer(id: nat, from: Hash)
    | SendAck(ack: NotificationAck)
    | CommitSync(v: Vcc, requests: seq<PendingKey>)
    | CommitRealtime(v: Vcc, requests: seq<PendingKey>)

  /** The places where the handlers would panic. */
  datatype Site =
    | SyncerMessageWhileNotSyncing
    | MessageOfAnotherSyncer
    | SyncQueueOccupied
    | NoAddedBlock
    | RealtimeBeforeConnect
    | SyncerStoppedBeforeConnect
    | StoreLookup

  datatype Outcome = Next(state: State, effects: seq<Effect>) | Exit | Bail | Panic(site: Site)

  predicate IsEmpty(v: Vcc)
  {
    v.removed == [] && v.added == []
  }

  predicate Missing(cache: Cache, v: Vcc)
  {
    exists b :: b in v.added && b !in cache
  }

  function TipOf(cache: Cache, v: Vcc): Tip
    requires v.added != [] && v.added[|v.added| - 1] in cache
  {
    var b := v.added[|v.added| - 1];
    Tip(b, cache[b].work)
  }

  /** One write transaction: the change is applied and the cursor offered its tip. */
  function Committed(st: State, v: Vcc): State
    requires CanApply(st.store, st.cache, v)
  {
    var b := v.added[|v.added| - 1];
    st.(store := Apply(st.store, st.cache, v),
        cursor := Some(Advance(st.cursor, Cursor(st.cache[b].work, b, st.cache[b].daa))))
  }

  function Asked(st: State, v: Vcc): seq<PendingKey>
  {
    RequestsAll(st.store.acc, st.cache, v.accepted)
  }

  // ----- handlers -----

  function OnConnected(st: State, sink: Tip, pp: Hash): Outcome
  {
    match st.sync
    case Initial =>
      var from := match st.cursor
        case None => Tip(pp, 0)
        case Some(c) => Tip(c.hash, c.work);
      Next(st.(sync := Syncing(from, 0, sink, None)),
           [RequestPending(st.store.pending), SpawnSyncer(0, from.hash)])
    case Syncing(_, _, _, _) => Next(st.(sync := st.sync.(target := sink)), [])
    case Synced(id, last) =>
      if last.hash == sink.hash || last.work > sink.work then Next(st, [])
      else Next(st.(sync := Syncing(last, id + 1, sink, None)), [SpawnSyncer(id + 1, last.hash)])
  }

  function OnDisconnected(st: State): Outcome
  {
    Next(st.(queue := []), [])
  }

  /** A sync response all of whose blocks are cached: commit it and acknowledge. */
  function Advanced(st: State, v: Vcc): Outcome
    requires st.sync.Syncing? && !Missing(st.cache, v)
  {
    if v.added == [] then Panic(NoAddedBlock)
    else if !CanApply(st.store, st.cache, v) then Panic(StoreLookup)
    else
      var tip, target := TipOf(st.cache, v), st.sync.target;
      var st' := Committed(st, v);
      if tip.hash == target.hash || tip.work > target.work then
        Next(st'.(sync := Synced(st.sync.syncerId, tip)), [SendAck(Stop), CommitSync(v, Asked(st, v))])
      else
        Next(st'.(sync := Syncing(tip, st.sync.syncerId, target, st.sync.parked)), [CommitSync(v, Asked(st, v)), SendAck(Continue)])
  }

  function OnSyncerVc(st: State, id: nat, v: Vcc): Outcome
  {
    if !st.sync.Syncing? then Panic(SyncerMessageWhileNotSyncing)
    else if id != st.sync.syncerId then Panic(MessageOfAnotherSyncer)
    else if IsEmpty(v) then Next(st, [SendAck(Continue)])
    else if Missing(st.cache, v) then
      if st.sync.parked.Some? then Panic(SyncQueueOccupied)
      else Next(st.(sync := st.sync.(parked := Some(v))), [])
    else Advanced(st, v)
  }

  function OnSyncerStopped(st: State, id: nat): Outcome
  {
    match st.sync
    case Initial => Panic(SyncerStoppedBeforeConnect)
    case Synced(last, _) => if id == last && st.shuttingDown then Exit else Next(st, [])
    case Syncing(_, current, _, _) =>
      if id != current then Next(st, [])
      else if st.shuttingDown then Exit
      else Bail
  }

  function OnRealtime(st: State, v: Vcc): Outcome
  {
    match st.sync
    case Initial => Panic(RealtimeBeforeConnect)
    case Syncing(_, _, _, _) => Next(st.(queue := st.queue + [v]), [])
    case Synced(id, _) =>
      if IsEmpty(v) then Next(st, [])
      else if st.queue != [] || Missing(st.cache, v) then Next(st.(queue := st.queue + [v]), [])
      else if v.added == [] then Panic(NoAddedBlock)
      else if !CanApply(st.store, st.cache, v) then Panic(StoreLookup)
      else Next(Committed(st, v).(sync := Synced(id, TipOf(st.cache, v))), [CommitRealtime(v, Asked(st, v))])
  }

  /** The cache drops its oldest blocks to stay within `capacity`, then takes the new one. */
  function Cached(st: State, h: CompactHeader, capacity: nat): State
  {
    var excess := if |st.order| + 1 <= capacity then 0 else |st.order| + 1 - capacity;
    var n := if excess <= |st.order| then excess else |st.order|;
    var order, cache := st.order[n..], st.cache - Elements(st.order[..n]);
    st.(order := if h.hash in cache then order else order + [h.hash], cache := cache[h.hash := h.info])
  }

  /** Apply queued real-time changes as long as their blocks are cached. */
  function Drained(st: State): Outcome
    requires st.sync.Synced?
    decreases |st.queue|
  {
    if st.queue == [] then Next(st, [])
    else
      var v, rest := st.queue[0], st.(queue := st.queue[1..]);
      if IsEmpty(v) then Drained(rest)
      else if Missing(st.cache, v) then Next(st, [])
      else if v.added == [] then Panic(NoAddedBlock)
      else if !CanApply(st.store, st.cache, v) then Panic(StoreLookup)
      else
        After([CommitRealtime(v, Asked(st, v))],
              Drained(Committed(rest, v).(sync := Synced(st.sync.lastSyncerId, TipOf(st.cache, v)))))
  }

  function OnBlock(st: State, h: CompactHeader, capacity: nat): Outcome
  {
    match st.sync
    case Initial => Next(Cached(st, h, |st.order| + 1), [])
    case Synced(_, _) => Drained(Cached(st, h, capacity))
    case Syncing(_, _, _, parked) =>
      var st1 := Cached(st, h, capacity);
      if parked.None? || Missing(st1.cache, parked.value) then Next(st1, [])
      else Advanced(st1.(sync := st.sync.(parked := None)), parked.value)
  }

  function OnShutdown(st: State): Outcome
  {
    if st.sync.Syncing? then Next(st.(shuttingDown := true), [SendAck(Stop)]) else Exit
  }

  // ----- the processor as the program has it -----

  datatype Signal = Running | Exited | Failed | Panicked(site: Site)

  class Processor {
    const syncedCapacity: nat
    var sync: SyncState
    var order: seq<Hash>
    var cache: Cache
    var queue: seq<Vcc>
    var shuttingDown: bool
    var store: Store
    var cursor: Option<Cursor>
    /** Everything sent on channels or committed so far. */
    var sent: seq<Effect>

    function Now(): State
      reads this
    {
      State(sync, order, cache, queue, shuttingDown, store, cursor)
    }

    ghost predicate Reached(r: Signal, o: Outcome, before: seq<Effect>)
      reads this
    {
      match o
      case Next(st, es) => r == Running && Now() == st && sent == before + es
      case Exit => r == Exited
      case Bail => r == Failed
      case Panic(site) => r == Panicked(site)
    }

    constructor (capacity: nat, store: Store, cursor: Option<Cursor>)
      ensures Now() == State(Initial, [], map[], [], false, store, cursor)
      ensures sent == [] && syncedCapacity == capacity
    {
      syncedCapacity := capacity;
      sync, order, cache, queue, shuttingDown := Initial, [], map[], [], false;
      this.store, this.cursor := store, cursor;
      sent := [];
    }

    method HandleConnect(sink: Tip, pp: Hash) returns (r: Signal)
      modifies this
      ensures Reached(r, OnConnected(old(Now()), sink, pp), old(sent))
    {
      r := Running;
      match sync {
        case Initial =>
          sent := sent + [RequestPending(store.pending)];
          var from := Tip(pp, 0);
          if cursor.Some? {
            from := Tip(cursor.value.hash, cursor.value.work);
          }
          sent := sent + [SpawnSyncer(0, from.hash)];
          sync := Syncing(from, 0, sink, None);
          assert old(sent) + [RequestPending(store.pending)] + [SpawnSyncer(0, from.hash)]
              == old(sent) + [RequestPending(store.pending), SpawnSyncer(0, from.hash)];
        case Syncing(_, _, _, _) =>
          sync := sync.(target := sink);
          assert sent == old(sent) + [];
        case Synced(id, last) =>
          if last.hash == sink.hash || last.work > sink.work {
            assert sent == old(sent) + [];
          } else {
            sent := sent + [SpawnSyncer(id + 1, last.hash)];
            sync := Syncing(last, id + 1, sink, None);
          }
      }
    }

    method HandleDisconnect()
      modifies this
      ensures Reached(Running, OnDisconnected(old(Now())), old(sent))
    {
      queue := [];
      assert sent == old(sent) + [];
    }

    method HandleShutdown() returns (r: Signal)
      modifies this
      ensures Reached(r, OnShutdown(old(Now())), old(sent))
    {
      shuttingDown := true;
      if sync.Syncing? {
        sent := sent + [SendAck(Stop)];
        return Running;
      }
      r := Exited;
    }

    /** The transactions tracked for a block that leaves the chain, one by one. */
    method HandleVccRemoval(b: Hash) returns (ok: bool)
      modifies this`store
      ensures ok <==> (b in old(store).tracked ==>
                b in cache && forall t :: t in old(store).tracked[b] ==> t in old(store).acc)
      ensures ok ==> store == Untrack(old(store), b, DaaOf(cache, b))
    {
      if b !in store.tracked {
        return true;
      }
      var s0 := store;
      var txs := s0.tracked[b];
      store := store.(tracked := store.tracked - {b});
      if b !in cache {
        return false;
      }
      var daa := cache[b].daa;
      var i := 0;
      assert SetHeaders(s0.acc, txs[..0], Header(b, daa)) == s0.acc;
      while i < |txs|
        invariant 0 <= i <= |txs|
        invariant forall j :: 0 <= j < i ==> txs[j] in s0.acc
        invariant store == Store(SetHeaders(s0.acc, txs[..i], Header(b, daa)), s0.tracked - {b},
                                 s0.pending - Unresolved(s0.acc, txs[..i], daa))
      {
        var t := txs[i];
        if t !in store.acc {
          return false;
        }
        UpdateOne(s0.acc, txs, i, Header(b, daa));
        var unresolved := store.acc[t].entries != [];
        store := store.(acc := Accepted(store.acc, t, Header(b, daa)));
        if unresolved {
          store := store.(pending := store.pending - {PendingKey(daa, t)});
        }
        i := i + 1;
      }
      assert txs[..i] == txs;
      return true;
    }

    /** The transactions a new chain block accepts, one by one. */
    method HandleVccAddition(a: AcceptedTxs) returns (ok: bool, asked: seq<PendingKey>)
      modifies this`store
      ensures ok <==> a.block in cache
      ensures ok ==> asked == Requests(old(store).acc, a.txs, DaaOf(cache, a.block))
      ensures ok ==> store == Track(old(store), a.block, DaaOf(cache, a.block), a.txs)
    {
      asked := [];
      if a.block !in cache {
        return false, [];
      }
      var h := Header(a.block, cache[a.block].daa);
      ghost var s0 := store;
      var tracked: seq<TxId> := [];
      var i := 0;
      TouchedNone(s0, h, a.txs);
      while i < |a.txs|
        invariant 0 <= i <= |a.txs|
        invariant tracked == Known(s0.acc, a.txs[..i]) && asked == Requests(s0.acc, a.txs[..i], h.daa)
        invariant store == TouchedPrefix(s0, h, a.txs, i)
      {
        var t := a.txs[i];
        TouchedNext(s0, h, a.txs, i);
        KnownSnoc(s0.acc, a.txs[..i], t, h.daa);
        assert a.txs[..i + 1] == a.txs[..i] + [t];
        if t in store.acc {
          tracked := tracked + [t];
          if store.acc[t].entries != [] {
            asked := asked + [PendingKey(h.daa, t)];
          }
        }
        AcceptTx(t, h);
        i := i + 1;
      }
      assert a.txs[..i] == a.txs;
      store := store.(tracked := store.tracked[a.block := tracked]);
      ok := true;
    }

    /** One transaction of a new chain block. */
    method AcceptTx(t: TxId, h: Header)
      modifies this`store
      ensures store == Touched(old(store), t, h)
    {
      if t in store.acc {
        var unresolved := store.acc[t].entries != [];
        store := store.(acc := Accepted(store.acc, t, h));
        if unresolved {
          store := store.(pending := store.pending + {PendingKey(h.daa, t)});
        }
      }
    }

    method RemoveBlocks(bs: seq<Hash>) returns (ok: bool)
      modifies this`store
      ensures ok <==> Removable(old(store), cache, bs)
      ensures ok ==> store == UntrackAll(old(store), cache, bs)
    {
      var i := 0;
      while i < |bs|
        invariant 0 <= i <= |bs|
        invariant UntrackAll(old(store), cache, bs) == UntrackAll(store, cache, bs[i..])
        invariant Removable(old(store), cache, bs) <==> Removable(store, cache, bs[i..])
      {
        RemovableStep(store, cache, bs[i..]);
        var good := HandleVccRemoval(bs[i]);
        if !good {
          return false;
        }
        assert bs[i..][1..] == bs[i + 1..];
        i := i + 1;
      }
      return true;
    }

    method AddBlocks(accepted: seq<AcceptedTxs>) returns (ok: bool, asked: seq<PendingKey>)
      modifies this`store
      ensures ok <==> forall a :: a in accepted ==> a.block in cache
      ensures ok ==> store == TrackAll(old(store), cache, accepted)
      ensures ok ==> asked == RequestsAll(old(store).acc, cache, accepted)
    {
      asked := [];
      var i := 0;
      while i < |accepted|
        invariant 0 <= i <= |accepted|
        invariant SameEntries(store.acc, old(store).acc)
        invariant asked + RequestsAll(old(store).acc, cache, accepted[i..]) == RequestsAll(old(store).acc, cache, accepted)
        invariant TrackAll(old(store), cache, accepted) == TrackAll(store, cache, accepted[i..])
        invariant forall a :: a in accepted[..i] ==> a.block in cache
      {
        var a := accepted[i];
        AddedNext(old(store).acc, store, cache, accepted, i, asked);
        var good, more := HandleVccAddition(a);
        if !good {
          assert a in accepted;
          return false, [];
        }
        assert accepted[..i + 1] == accepted[..i] + [a];
        asked := asked + more;
        i := i + 1;
      }
      assert accepted[..i] == accepted;
      ok := true;
    }

    /** One write transaction: removals, additions, cursor. */
    method HandleVcc(v: Vcc) returns (ok: bool, asked: seq<PendingKey>)
      modifies this`store, this`cursor
      ensures ok <==> CanApply(old(store), cache, v)
      ensures ok ==> asked == Asked(old(Now()), v)
      ensures ok ==> Now() == Committed(old(Now()), v)
    {
      ok := RemoveBlocks(v.removed);
      if !ok {
        return false, [];
      }
      UntrackAllEntries(old(store), cache, v.removed);
      SameRequestsAll(store.acc, old(store).acc, cache, v.accepted);
      ok, asked := AddBlocks(v.accepted);
      if !ok || v.added == [] || v.added[|v.added| - 1] !in cache {
        return false, [];
      }
      var b := v.added[|v.added| - 1];
      cursor := Some(Advance(cursor, Cursor(cache[b].work, b, cache[b].daa)));
    }

    method IsMissing(v: Vcc) returns (missing: bool)
      ensures missing == Missing(cache, v)
    {
      var i := 0;
      while i < |v.added|
        invariant 0 <= i <= |v.added|
        invariant forall j :: 0 <= j < i ==> v.added[j] in cache
      {
        if v.added[i] !in cache {
          return true;
        }
        i := i + 1;
      }
      return false;
    }

    method AdvanceSync(v: Vcc) returns (r: Signal)
      requires sync.Syncing? && !Missing(cache, v)
      modifies this
      ensures Reached(r, Advanced(old(Now()), v), old(sent))
    {
      if v.added == [] {
        return Panicked(NoAddedBlock);
      }
      var tip := TipOf(cache, v);
      var done := tip.hash == sync.target.hash || tip.work > sync.target.work;
      if done {
        sent := sent + [SendAck(Stop)];
      }
      var ok, asked := HandleVcc(v);
      if !ok {
        return Panicked(StoreLookup);
      }
      sent := sent + [CommitSync(v, asked)];
      if done {
        sync := Synced(sync.syncerId, tip);
        assert old(sent) + [SendAck(Stop)] + [CommitSync(v, asked)] == old(sent) + [SendAck(Stop), CommitSync(v, asked)];
      } else {
        sync := Syncing(tip, sync.syncerId, sync.target, sync.parked);
        sent := sent + [SendAck(Continue)];
        assert old(sent) + [CommitSync(v, asked)] + [SendAck(Continue)] == old(sent) + [CommitSync(v, asked), SendAck(Continue)];
      }
      return Running;
    }

    method HandleSyncerVc(id: nat, v: Vcc) returns (r: Signal)
      modifies this
      ensures Reached(r, OnSyncerVc(old(Now()), id, v), old(sent))
    {
      if !sync.Syncing? {
        return Panicked(SyncerMessageWhileNotSyncing);
      }
      if id != sync.syncerId {
        return Panicked(MessageOfAnotherSyncer);
      }
      if IsEmpty(v) {
        sent := sent + [SendAck(Continue)];
        return Running;
      }
      var missing := IsMissing(v);
      if missing {
        if sync.parked.Some? {
          return Panicked(SyncQueueOccupied);
        }
        sync := sync.(parked := Some(v));
        assert sent == old(sent) + [];
        return Running;
      }
      r := AdvanceSync(v);
    }

    method HandleSyncerStopped(id: nat) returns (r: Signal)
      modifies this
      ensures Reached(r, OnSyncerStopped(old(Now()), id), old(sent))
    {
      assert sent == old(sent) + [];
      match sync {
        case Initial => r := Panicked(SyncerStoppedBeforeConnect);
        case Synced(last, _) => r := if id == last && shuttingDown then Exited else Running;
        case Syncing(_, current, _, _) =>
          r := if id != current then Running else if shuttingDown then Exited else Failed;
      }
    }

    method HandleRealtimeVcc(v: Vcc) returns (r: Signal)
      modifies this
      ensures Reached(r, OnRealtime(old(Now()), v), old(sent))
    {
      assert sent == old(sent) + [];
      match sync {
        case Initial => return Panicked(RealtimeBeforeConnect);
        case Syncing(_, _, _, _) =>
          queue := queue + [v];
          return Running;
        case Synced(id, last) =>
          if IsEmpty(v) {
            return Running;
          }
          var missing := IsMissing(v);
          if queue != [] || missing {
            queue := queue + [v];
            return Running;
          }
          if v.added == [] {
            return Panicked(NoAddedBlock);
          }
          var ok, asked := HandleVcc(v);
          if !ok {
            return Panicked(StoreLookup);
          }
          sync := Synced(id, TipOf(cache, v));
          sent := sent + [CommitRealtime(v, asked)];
          return Running;
      }
    }

    /** The loop that makes room in the cache and inserts the new block. */
    method InsertBlock(h: CompactHeader, capacity: nat)
      modifies this`order, this`cache
      ensures Now() == Cached(old(Now()), h, capacity)
    {
      var needToDelete := if |order| + 1 <= capacity then 0 else |order| + 1 - capacity;
      var k := 0;
      assert cache - Elements(old(order)[..0]) == cache;
      while k < needToDelete
        invariant 0 <= k <= needToDelete
        invariant var n := if k <= |old(order)| then k else |old(order)|;
                  order == old(order)[n..] && cache == old(cache) - Elements(old(order)[..n])
      {
        if order != [] {
          assert old(order)[..k + 1] == old(order)[..k] + [order[0]];
          assert (old(cache) - Elements(old(order)[..k])) - {order[0]} == old(cache) - Elements(old(order)[..k + 1]);
          cache := cache - {order[0]};
          order := order[1..];
        }
        k := k + 1;
      }
      if h.hash !in cache {
        order := order + [h.hash];
      }
      cache := cache[h.hash := h.info];
    }

    method HandleProcessedBlock(h: CompactHeader) returns (r: Signal)
      modifies this
      ensures Reached(r, OnBlock(old(Now()), h, syncedCapacity), old(sent))
    {
      assert sent == old(sent) + [];
      match sync {
        case Initial =>
          InsertBlock(h, |order| + 1);
          return Running;
        case Synced(_, _) =>
          InsertBlock(h, syncedCapacity);
          r := DrainQueue();
        case Syncing(_, _, _, parked) =>
          InsertBlock(h, syncedCapacity);
          if parked.None? {
            return Running;
          }
          var missing := IsMissing(parked.value);
          if missing {
            return Running;
          }
          sync := sync.(parked := None);
          r := AdvanceSync(parked.value);
      }
    }

    method DrainQueue() returns (r: Signal)
      requires sync.Synced?
      modifies this
      ensures Reached(r, Drained(old(Now())), old(sent))
    {
      ghost var goal, done := Drained(Now()), [];
      assert sent == old(sent) + done;
      assert goal == After(done, Drained(Now())) by { AfterNothing(goal); }
      while queue != []
        invariant sync.Synced? && sent == old(sent) + done
        invariant goal == After(done, Drained(Now()))
        decreases |queue|
      {
        var v := queue[0];
        if IsEmpty(v) {
          queue := queue[1..];
          continue;
        }
        var missing := IsMissing(v);
        if missing {
          assert done + [] == done;
          return Running;
        }
        ghost var st := Now();
        queue := queue[1..];
        if v.added == [] {
          return Panicked(NoAddedBlock);
        }
        var ok, asked := HandleVcc(v);
        if !ok {
          return Panicked(StoreLookup);
        }
        sync := Synced(sync.lastSyncerId, TipOf(cache, v));
        sent := sent + [CommitRealtime(v, asked)];
        assert Drained(st) == After([CommitRealtime(v, asked)], Drained(Now()));
        AfterAfter(done, [CommitRealtime(v, asked)], Drained(Now()));
        done := done + [CommitRealtime(v, asked)];
        assert old(sent) + done == sent;
      }
      assert done + [] == done;
      return Running;
    }
  }

  /** `o` preceded by the effects `es`. */
  function After(es: seq<Effect>, o: Outcome): Outcome
  {
    if o.Next? then Next(o.state, es + o.effects) else o
  }

  lemma AfterNothing(o: Outcome)
    ensures After([], o) == o
  {
    if o.Next? { assert [] + o.effects == o.effects; }
  }

  lemma AfterAfter(a: seq<Effect>, b: seq<Effect>, o: Outcome)
    ensures After(a, After(b, o)) == After(a + b, o)
  {
    if o.Next? { assert a + (b + o.effects) == (a + b) + o.effects; }
  }

  lemma RemovableStep(s: Store, cache: Cache, bs: seq<Hash>)
    requires bs != []
    ensures Removable(s, cache, bs) <==>
              && Removable(s, cache, [bs[0]])
              && Removable(Untrack(s, bs[0], DaaOf(cache, bs[0])), cache, bs[1..])
  {
    var b, s' := bs[0], Untrack(s, bs[0], DaaOf(cache, bs[0]));
    assert s'.acc.Keys == s.acc.Keys && s'.tracked == s.tracked - {b};
    assert forall x :: x in bs <==> x == b || x in bs[1..];
    if Removable(s', cache, bs[1..]) && Removable(s, cache, [b]) {
      assert forall x :: x in bs && x in s.tracked ==> x == b || (x in s'.tracked && s'.tracked[x] == s.tracked[x]);
      assert b in [b];
    }
  }

  /** One accepted block done: the rest still to do. */
  lemma AddedNext(acc: View, s: Store, cache: Cache, accepted: seq<AcceptedTxs>, i: nat, asked: seq<PendingKey>)
    requires i < |accepted| && SameEntries(s.acc, acc)
    ensures var a := accepted[i];
            var s' := Track(s, a.block, DaaOf(cache, a.block), a.txs);
            && SameEntries(s'.acc, acc)
            && TrackAll(s, cache, accepted[i..]) == TrackAll(s', cache, accepted[i + 1..])
            && asked + RequestsAll(acc, cache, accepted[i..])
               == (asked + Requests(s.acc, a.txs, DaaOf(cache, a.block))) + RequestsAll(acc, cache, accepted[i + 1..])
  {
    var a := accepted[i];
    assert accepted[i..][0] == a && accepted[i..][1..] == accepted[i + 1..];
    SameRequests(s.acc, acc, a.txs, DaaOf(cache, a.block));
  }

  function Touched(s: Store, t: TxId, h: Header): Store
  {
    if t !in s.acc then s
    else
      s.(acc := Accepted(s.acc, t, h),
         pending := if s.acc[t].entries != [] then s.pending + {PendingKey(h.daa, t)} else s.pending)
  }

  /** The store after the first `i` transactions of a new chain block. */
  function TouchedPrefix(s: Store, h: Header, txs: seq<TxId>, i: nat): Store
    requires i <= |txs|
  {
    Store(SetHeaders(s.acc, txs[..i], h), s.tracked, s.pending + Unresolved(s.acc, txs[..i], h.daa))
  }

  lemma TouchedNone(s: Store, h: Header, txs: seq<TxId>)
    ensures TouchedPrefix(s, h, txs, 0) == s
  {
    assert SetHeaders(s.acc, txs[..0], h) == s.acc;
    assert Unresolved(s.acc, txs[..0], h.daa) == {};
  }

  lemma TouchedNext(s: Store, h: Header, txs: seq<TxId>, i: nat)
    requires i < |txs|
    ensures Touched(TouchedPrefix(s, h, txs, i), txs[i], h) == TouchedPrefix(s, h, txs, i + 1)
    ensures txs[i] in s.acc <==> txs[i] in TouchedPrefix(s, h, txs, i).acc
    ensures txs[i] in s.acc ==> TouchedPrefix(s, h, txs, i).acc[txs[i]].entries == s.acc[txs[i]].entries
  {
    UpdateOne(s.acc, txs, i, h);
    var p := TouchedPrefix(s, h, txs, i);
    assert p.acc.Keys == s.acc.Keys;
    if txs[i] !in s.acc {
      assert SetHeaders(s.acc, txs[..i], h) == SetHeaders(s.acc, txs[..i + 1], h);
    }
  }

  lemma UpdateOne(acc: View, txs: seq<TxId>, i: nat, h: Header)
    requires i < |txs|
    ensures Accepted(SetHeaders(acc, txs[..i], h), txs[i], h) == SetHeaders(acc, txs[..i + 1], h)
    ensures Unresolved(acc, txs[..i + 1], h.daa)
         == Unresolved(acc, txs[..i], h.daa)
            + (if txs[i] in acc && acc[txs[i]].entries != [] then {PendingKey(h.daa, txs[i])} else {})
    ensures txs[i] in acc ==> SetHeaders(acc, txs[..i], h)[txs[i]].entries == acc[txs[i]].entries
  {
    assert txs[..i + 1] == txs[..i] + [txs[i]];
  }

  lemma {:induction false} KnownSnoc(acc: View, txs: seq<TxId>, t: TxId, daa: nat)
    ensures Known(acc, txs + [t]) == Known(acc, txs) + (if t in acc then [t] else [])
    ensures Requests(acc, txs + [t], daa)
         == Requests(acc, txs, daa) + (if t in acc && acc[t].entries != [] then [PendingKey(daa, t)] else [])
  {
    if txs != [] {
      assert (txs + [t])[1..] == txs[1..] + [t];
      KnownSnoc(acc, txs[1..], t, daa);
    }
  }
}
