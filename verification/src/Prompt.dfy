/** Nothing is held back without need: what the block cache keeps, when a sync
    response stays parked, and when a real-time change stays queued. */
module Prompt {
  import opened Bytes
  import opened ChainStore
  import opened VirtualProcessor
  import opened RealtimeOrder
  import opened SyncTarget

  // ----- the block cache -----

  lemma {:induction false} DrainedOrder(st: State)
    requires st.sync.Synced? && Drained(st).Next?
    ensures Drained(st).state.order == st.order && Drained(st).state.cache == st.cache
    decreases |st.queue|
  {
    if Waits(st) {
      DrainStops(st);
    } else {
      DrainUnfold(st);
      DrainedOrder(DrainRest(st));
    }
  }

  /** A processed block is in the cache afterwards; before the first connection nothing
      is evicted for it; and no other input touches the cache. */
  lemma StepCaches(st: State, i: Input, capacity: nat)
    requires React(st, i, capacity).Next?
    ensures var st' := React(st, i, capacity).state;
            && (!i.Block? ==> st'.cache == st.cache && st'.order == st.order)
            && (i.Block? ==> i.header.hash in st'.cache && st'.cache[i.header.hash] == i.header.info)
            && (i.Block? && st.sync.Initial? ==> st'.cache == st.cache[i.header.hash := i.header.info])
            && (i.Block? && !st.sync.Initial? ==> st'.cache == Cached(st, i.header, capacity).cache)
  {
    if i.Block? {
      if st.sync.Synced? { DrainedOrder(Cached(st, i.header, capacity)); }
      assert st.cache - Elements(st.order[..0]) == st.cache;
    }
  }

  // ----- parked responses -----

  /** A parked response waits for a block that is not cached. */
  predicate ParkedWaits(st: State)
  {
    st.sync.Syncing? && st.sync.parked.Some? ==> Missing(st.cache, st.sync.parked.value)
  }

  lemma StepParks(st: State, i: Input, capacity: nat)
    requires ParkedWaits(st) && React(st, i, capacity).Next?
    ensures ParkedWaits(React(st, i, capacity).state)
  {
    if i.Block? && st.sync.Synced? { DrainedSynced(Cached(st, i.header, capacity)); }
  }

  // ----- queued changes -----

  /** `late`: a sync has ended, and no block has been processed and no disconnect seen
      since. */
  datatype Watch = Watch(st: State, late: bool)

  function WatchStep(x: Watch, i: Input, capacity: nat): Watch
    requires React(x.st, i, capacity).Next?
  {
    var st := React(x.st, i, capacity).state;
    Watch(st, (x.st.sync.Syncing? && st.sync.Synced?) || (x.late && !i.Block? && !i.Disconnected?))
  }

  function WatchRun(x: Watch, inputs: seq<Input>, capacity: nat): Option<Watch>
    decreases |inputs|
  {
    if inputs == [] then Some(x)
    else if !React(x.st, inputs[0], capacity).Next? then None
    else WatchRun(WatchStep(x, inputs[0], capacity), inputs[1..], capacity)
  }

  predicate OnTime(x: Watch)
  {
    ParkedWaits(x.st) && (x.st.sync.Synced? && !x.late ==> Waits(x.st))
  }

  lemma StepOnTime(x: Watch, i: Input, capacity: nat)
    requires OnTime(x) && React(x.st, i, capacity).Next?
    ensures OnTime(WatchStep(x, i, capacity))
  {
    StepParks(x.st, i, capacity);
    if i.Block? && x.st.sync.Synced? {
      DrainedCommits(Cached(x.st, i.header, capacity));
    }
  }

  lemma {:induction false} RunOnTime(x: Watch, inputs: seq<Input>, capacity: nat)
    requires OnTime(x) && WatchRun(x, inputs, capacity).Some?
    ensures OnTime(WatchRun(x, inputs, capacity).value)
    decreases |inputs|
  {
    if inputs != [] {
      StepOnTime(x, inputs[0], capacity);
      RunOnTime(WatchStep(x, inputs[0], capacity), inputs[1..], capacity);
    }
  }

  /** Over every run: a sync response stays parked only while a block it adds is not
      cached, and in the synced state real-time changes stay queued only while the
      first of them misses a block, or from the end of a sync to the next processed
      block. */
  lemma HeldBackOnlyForBlocks(st: State, inputs: seq<Input>, capacity: nat)
    requires st.sync.Initial? && WatchRun(Watch(st, false), inputs, capacity).Some?
    ensures var x := WatchRun(Watch(st, false), inputs, capacity).value;
            && (x.st.sync.Syncing? && x.st.sync.parked.Some? ==>
                  exists b :: b in x.st.sync.parked.value.added && b !in x.st.cache)
            && (x.st.sync.Synced? && x.st.queue != [] ==>
                  x.late || exists b :: b in x.st.queue[0].added && b !in x.st.cache)
  {
    RunOnTime(Watch(st, false), inputs, capacity);
  }

  /** The exception is real: whichever step ends a sync leaves the queue as it is, even
      if nothing in it is missing a block. */
  lemma SyncEndLeavesQueue(st: State, i: Input, capacity: nat)
    requires st.sync.Syncing? && React(st, i, capacity).Next? && React(st, i, capacity).state.sync.Synced?
    ensures React(st, i, capacity).state.queue == st.queue
    ensures i.Block? || i.SyncerVc?
  {
  }

  // ----- new syncers -----

  /** A connection starts a syncer exactly when it is the first, or when no sync is
      running and the last accepting block neither is the sink nor lies on more work;
      the syncer starts from the last accepting block. */
  lemma SpawnsExactly(st: State, sink: Tip, pp: Hash)
    ensures var o := OnConnected(st, sink, pp);
            && o.Next?
            && ((exists e :: e in o.effects && e.SpawnSyncer?) <==>
                  || st.sync.Initial?
                  || (st.sync.Synced? && st.sync.last.hash != sink.hash && st.sync.last.work <= sink.work))
            && (forall e :: e in o.effects && e.SpawnSyncer? ==>
                  && o.state.sync.Syncing? && e.id == o.state.sync.syncerId && e.from == o.state.sync.last.hash
                  && (st.sync.Synced? ==> e.id > st.sync.lastSyncerId && e.from == st.sync.last.hash)
                  && (st.sync.Initial? ==>
                        o.state.sync.last == if st.cursor.None? then Tip(pp, 0) else Tip(st.cursor.value.hash, st.cursor.value.work)))
  {
    var o := OnConnected(st, sink, pp);
    if st.sync.Initial? {
      assert o.effects[1].SpawnSyncer?;
    } else if o.effects != [] {
      assert o.effects[0].SpawnSyncer?;
    }
  }
}
