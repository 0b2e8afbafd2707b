/** What the processor does with real-time chain changes over a whole run. */
module RealtimeOrder {
  import opened Bytes
  import opened ChainStore
  import opened VirtualProcessor

  /** Everything that can reach the processor before shutdown, and what other
      actors do to the store meanwhile. */
  datatype Input =
    | Connected(sink: Tip, pp: Hash)
    | Disconnected
    | Block(header: CompactHeader)
    | Realtime(v: Vcc)
    | SyncerVc(id: nat, v: Vcc)
    | SyncerStopped(id: nat)
    | StoreEvent(e: Event)

  function React(st: State, i: Input, capacity: nat): Outcome
  {
    match i
    case Connected(sink, pp) => OnConnected(st, sink, pp)
    case Disconnected => OnDisconnected(st)
    case Block(h) => OnBlock(st, h, capacity)
    case Realtime(v) => OnRealtime(st, v)
    case SyncerVc(id, v) => OnSyncerVc(st, id, v)
    case SyncerStopped(id) => OnSyncerStopped(st, id)
    case StoreEvent(e) => Next(if e.ChainChange? then st else st.(store := Step(st.store, e)), [])
  }

  /** The state with the real-time changes received and applied since the last disconnect. */
  datatype Trace = Trace(st: State, received: seq<Vcc>, applied: seq<Vcc>)

  function RealtimeCommits(es: seq<Effect>): seq<Vcc>
  {
    if es == [] then []
    else (if es[0].CommitRealtime? then [es[0].v] else []) + RealtimeCommits(es[1..])
  }

  function NonEmpty(vs: seq<Vcc>): seq<Vcc>
  {
    if vs == [] then [] else (if IsEmpty(vs[0]) then [] else [vs[0]]) + NonEmpty(vs[1..])
  }

  lemma {:induction false} NonEmptySnoc(vs: seq<Vcc>, v: Vcc)
    ensures NonEmpty(vs + [v]) == NonEmpty(vs) + (if IsEmpty(v) then [] else [v])
  {
    if vs != [] {
      assert (vs + [v])[1..] == vs[1..] + [v];
      NonEmptySnoc(vs[1..], v);
    }
  }

  lemma {:induction false} NoRealtimeCommit(es: seq<Effect>)
    requires forall e :: e in es ==> !e.CommitRealtime?
    ensures RealtimeCommits(es) == []
  {
    if es != [] { NoRealtimeCommit(es[1..]); }
  }

  function TraceStep(tr: Trace, i: Input, capacity: nat): Trace
    requires React(tr.st, i, capacity).Next?
  {
    var o := React(tr.st, i, capacity);
    if i.Disconnected? then Trace(o.state, [], [])
    else
      Trace(o.state,
            if i.Realtime? then tr.received + [i.v] else tr.received,
            tr.applied + RealtimeCommits(o.effects))
  }

  /** Nothing is lost, duplicated or reordered. */
  ghost predicate InOrder(tr: Trace)
  {
    NonEmpty(tr.received) == tr.applied + NonEmpty(tr.st.queue)
  }

  predicate Waits(st: State)
  {
    st.queue == [] || Missing(st.cache, st.queue[0])
  }

  predicate CommitsCached(cache: Cache, es: seq<Effect>)
  {
    forall e :: e in es && (e.CommitRealtime? || e.CommitSync?) ==> !Missing(cache, e.v)
  }

  /** The state in which draining goes on after the head of the queue. */
  function DrainRest(st: State): State
    requires st.sync.Synced? && st.queue != []
    requires IsEmpty(st.queue[0]) || CanApply(st.store, st.cache, st.queue[0])
  {
    var v, rest := st.queue[0], st.(queue := st.queue[1..]);
    if IsEmpty(v) then rest
    else Committed(rest, v).(sync := Synced(st.sync.lastSyncerId, TipOf(st.cache, v)))
  }

  lemma DrainUnfold(st: State)
    requires st.sync.Synced? && Drained(st).Next? && !Waits(st)
    ensures IsEmpty(st.queue[0]) || CanApply(st.store, st.cache, st.queue[0])
    ensures var v, st1 := st.queue[0], DrainRest(st);
            && st1.sync.Synced? && st1.sync.lastSyncerId == st.sync.lastSyncerId
            && st1.queue == st.queue[1..] && st1.cache == st.cache && Drained(st1).Next?
            && Drained(st).state == Drained(st1).state
            && Drained(st).effects ==
                 (if IsEmpty(v) then [] else [CommitRealtime(v, Asked(st, v))]) + Drained(st1).effects
  {
  }

  lemma DrainStops(st: State)
    requires st.sync.Synced? && Drained(st).Next? && Waits(st)
    ensures Drained(st) == Next(st, [])
  {
  }

  /** Draining stops only at a change that waits, and commits only changes whose
      blocks are cached. */
  lemma {:induction false} DrainedCommits(st: State)
    requires st.sync.Synced? && Drained(st).Next?
    ensures var st', es := Drained(st).state, Drained(st).effects;
            && Waits(st') && st'.cache == st.cache && CommitsCached(st.cache, es)
            && (forall e :: e in es ==> e.CommitRealtime?)
    decreases |st.queue|
  {
    if Waits(st) {
      DrainStops(st);
    } else {
      DrainUnfold(st);
      DrainedCommits(DrainRest(st));
    }
  }

  /** Draining moves a prefix of the queue, minus empty changes, into the commits. */
  lemma {:induction false} DrainedInOrder(st: State)
    requires st.sync.Synced? && Drained(st).Next?
    ensures NonEmpty(st.queue) == RealtimeCommits(Drained(st).effects) + NonEmpty(Drained(st).state.queue)
    decreases |st.queue|
  {
    if Waits(st) {
      DrainStops(st);
    } else {
      DrainUnfold(st);
      var v, st1 := st.queue[0], DrainRest(st);
      DrainedInOrder(st1);
      var es1 := Drained(st1).effects;
      if !IsEmpty(v) {
        CommitFirst(v, Asked(st, v), es1);
      } else {
        assert [] + es1 == es1;
      }
    }
  }

  lemma CommitFirst(v: Vcc, asked: seq<PendingKey>, es: seq<Effect>)
    ensures RealtimeCommits([CommitRealtime(v, asked)] + es) == [v] + RealtimeCommits(es)
  {
    assert ([CommitRealtime(v, asked)] + es)[1..] == es;
  }

  /** A change is committed only when all its added blocks are cached, and a
      processed block in `Synced` leaves a queue that is empty or waits for one. */
  lemma CommitsOnlyCached(st: State, i: Input, capacity: nat)
    requires React(st, i, capacity).Next?
    ensures CommitsCached(React(st, i, capacity).state.cache, React(st, i, capacity).effects)
    ensures i.Block? && st.sync.Synced? ==> Waits(React(st, i, capacity).state)
    ensures !i.Realtime? && !(i.Block? && st.sync.Synced?) ==>
              forall e :: e in React(st, i, capacity).effects ==> !e.CommitRealtime?
  {
    if i.Block? && st.sync.Synced? {
      DrainedCommits(Cached(st, i.header, capacity));
    }
  }

  /** Every step keeps the order. */
  lemma StepInOrder(tr: Trace, i: Input, capacity: nat)
    requires InOrder(tr) && React(tr.st, i, capacity).Next?
    ensures InOrder(TraceStep(tr, i, capacity))
  {
    if i.Realtime? {
      RealtimeInOrder(tr, i.v, capacity);
    } else if i.Block? && tr.st.sync.Synced? {
      BlockInOrder(tr, i.header, capacity);
    } else {
      QuietInOrder(tr, i, capacity);
    }
  }

  lemma QuietInOrder(tr: Trace, i: Input, capacity: nat)
    requires InOrder(tr) && React(tr.st, i, capacity).Next? && !i.Realtime? && !(i.Block? && tr.st.sync.Synced?)
    ensures InOrder(TraceStep(tr, i, capacity))
  {
    var o := React(tr.st, i, capacity);
    CommitsOnlyCached(tr.st, i, capacity);
    NoRealtimeCommit(o.effects);
    QueueUntouched(tr.st, i, capacity);
    assert tr.applied + [] == tr.applied;
  }

  lemma BlockInOrder(tr: Trace, h: CompactHeader, capacity: nat)
    requires InOrder(tr) && tr.st.sync.Synced? && React(tr.st, Block(h), capacity).Next?
    ensures InOrder(TraceStep(tr, Block(h), capacity))
  {
    var o := React(tr.st, Block(h), capacity);
    DrainedInOrder(Cached(tr.st, h, capacity));
    assert (tr.applied + RealtimeCommits(o.effects)) + NonEmpty(o.state.queue)
        == tr.applied + (RealtimeCommits(o.effects) + NonEmpty(o.state.queue));
  }

  lemma QueueUntouched(st: State, i: Input, capacity: nat)
    requires React(st, i, capacity).Next? && !i.Realtime? && !(i.Block? && st.sync.Synced?)
    ensures React(st, i, capacity).state.queue == if i.Disconnected? then [] else st.queue
  {
  }

  lemma RealtimeInOrder(tr: Trace, v: Vcc, capacity: nat)
    requires InOrder(tr) && OnRealtime(tr.st, v).Next?
    ensures InOrder(TraceStep(tr, Realtime(v), capacity))
  {
    NonEmptySnoc(tr.received, v);
    NonEmptySnoc(tr.st.queue, v);
    RealtimeSplits(tr.st, v);
  }

  /** A real-time change is applied, queued last, or dropped because it is empty. */
  lemma RealtimeSplits(st: State, v: Vcc)
    requires OnRealtime(st, v).Next?
    ensures var o := OnRealtime(st, v);
            || (RealtimeCommits(o.effects) == [v] && !IsEmpty(v) && st.queue == [] && o.state.queue == [])
            || (RealtimeCommits(o.effects) == [] && o.state.queue == st.queue + [v])
            || (RealtimeCommits(o.effects) == [] && IsEmpty(v) && o.state.queue == st.queue)
  {
    var o := OnRealtime(st, v);
    if o.effects != [] {
      assert o.effects == [CommitRealtime(v, Asked(st, v))] + [];
      CommitFirst(v, Asked(st, v), []);
    }
  }

  /** A run ends early when a handler exits, fails or panics. */
  function RunTrace(tr: Trace, inputs: seq<Input>, capacity: nat): Option<Trace>
    decreases |inputs|
  {
    if inputs == [] then Some(tr)
    else if !React(tr.st, inputs[0], capacity).Next? then None
    else RunTrace(TraceStep(tr, inputs[0], capacity), inputs[1..], capacity)
  }

  /** Real-time ordering.  Whatever arrives, in whatever order: since the last
      disconnect the real-time changes applied, followed by those still queued,
      are those received, in order, empty ones left out. */
  lemma RealtimeOrdering(st: State, inputs: seq<Input>, capacity: nat)
    requires st.queue == [] && RunTrace(Trace(st, [], []), inputs, capacity).Some?
    ensures InOrder(RunTrace(Trace(st, [], []), inputs, capacity).value)
  {
    RunInOrder(Trace(st, [], []), inputs, capacity);
  }

  lemma {:induction false} RunInOrder(tr: Trace, inputs: seq<Input>, capacity: nat)
    requires InOrder(tr) && RunTrace(tr, inputs, capacity).Some?
    ensures InOrder(RunTrace(tr, inputs, capacity).value)
    decreases |inputs|
  {
    if inputs != [] {
      StepInOrder(tr, inputs[0], capacity);
      RunInOrder(TraceStep(tr, inputs[0], capacity), inputs[1..], capacity);
    }
  }

  // ----- the block cache -----

  ghost predicate Enumerates(order: seq<Hash>, cache: Cache)
  {
    && (forall b :: b in cache <==> b in order)
    && (forall i, j :: 0 <= i < j < |order| ==> order[i] != order[j])
  }

  /** The order list always enumerates the cached blocks once each, the new block
      is cached, and the cache outgrows neither its capacity nor one block. */
  lemma CachedKeeps(st: State, h: CompactHeader, capacity: nat)
    requires Enumerates(st.order, st.cache)
    ensures var st' := Cached(st, h, capacity);
            && Enumerates(st'.order, st'.cache) && st'.cache[h.hash] == h.info
            && |st'.order| <= (if capacity > 1 then capacity else 1)
  {
    var excess := if |st.order| + 1 <= capacity then 0 else |st.order| + 1 - capacity;
    var n := if excess <= |st.order| then excess else |st.order|;
    Evicted(st.order, st.cache, n);
    Included(st.order[n..], st.cache - Elements(st.order[..n]), h);
  }

  /** Eviction is oldest first and only under pressure; what stays is unchanged. */
  lemma EvictsOldest(st: State, h: CompactHeader, capacity: nat)
    requires Enumerates(st.order, st.cache)
    ensures var st' := Cached(st, h, capacity);
            && (forall b :: b in st'.cache && b != h.hash ==> b in st.cache && st'.cache[b] == st.cache[b])
            && (forall i, j :: 0 <= i < j < |st.order| && st.order[i] != h.hash && st.order[i] in st'.cache ==>
                  st.order[j] in st'.cache)
            && ((exists b :: b in st.cache && b !in st'.cache) ==>
                  |st.order| >= capacity && |st'.order| + 1 >= capacity)
  {
    var excess := if |st.order| + 1 <= capacity then 0 else |st.order| + 1 - capacity;
    var n := if excess <= |st.order| then excess else |st.order|;
    var st' := Cached(st, h, capacity);
    forall i | 0 <= i < |st.order| && st.order[i] != h.hash
      ensures st.order[i] in st'.cache <==> i >= n
    {
      if i < n { assert st.order[i] == st.order[..n][i]; }
    }
    if n == 0 { assert st.cache - Elements(st.order[..n]) == st.cache; }
  }

  lemma Evicted(order: seq<Hash>, cache: Cache, n: nat)
    requires n <= |order| && Enumerates(order, cache)
    ensures Enumerates(order[n..], cache - Elements(order[..n]))
  {
    forall b ensures b in order[n..] <==> b in order && b !in order[..n] {
      assert order == order[..n] + order[n..];
    }
  }

  lemma Included(order: seq<Hash>, cache: Cache, h: CompactHeader)
    requires Enumerates(order, cache)
    ensures Enumerates(if h.hash in cache then order else order + [h.hash], cache[h.hash := h.info])
  {
  }
}
