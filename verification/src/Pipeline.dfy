/** The processor's handlers drive the store of `ChainStore`: a run of the
    processor is a run of the store, so what holds of all store runs holds of the
    processor. */
module Pipeline {
  import opened Bytes
  import opened AcceptanceLog
  import opened ChainStore
  import opened CatchUp
  import opened Cursors
  import opened VirtualProcessor
  import opened RealtimeOrder

  /** The chain changes among the effects of a step, with the cache they were applied under. */
  function EventsOf(es: seq<Effect>, cache: Cache): seq<Event>
  {
    if es == [] then []
    else
      (if es[0].CommitSync? || es[0].CommitRealtime? then [ChainChange(es[0].v, cache)] else [])
      + EventsOf(es[1..], cache)
  }

  function StepEvents(st: State, i: Input, capacity: nat): seq<Event>
    requires React(st, i, capacity).Next?
  {
    var o := React(st, i, capacity);
    if i.StoreEvent? && !i.e.ChainChange? then [i.e] else EventsOf(o.effects, o.state.cache)
  }

  lemma {:induction false} RunConcat(s: Store, a: seq<Event>, b: seq<Event>)
    ensures Run(s, a + b) == Run(Run(s, a), b)
    decreases |a|
  {
    if a == [] {
      assert a + b == b;
    } else {
      assert (a + b)[1..] == a[1..] + b;
      RunConcat(Step(s, a[0]), a[1..], b);
    }
  }

  lemma RunOne(s: Store, e: Event)
    ensures Run(s, [e]) == Step(s, e)
  {
    assert [e][1..] == [];
  }

  lemma {:induction false} DrainedStore(st: State)
    requires st.sync.Synced? && Drained(st).Next?
    ensures Drained(st).state.store == Run(st.store, EventsOf(Drained(st).effects, st.cache))
    decreases |st.queue|
  {
    if Waits(st) {
      DrainStops(st);
    } else {
      DrainUnfold(st);
      var v, st1 := st.queue[0], DrainRest(st);
      DrainedStore(st1);
      var es1 := Drained(st1).effects;
      if IsEmpty(v) {
        assert [] + es1 == es1;
      } else {
        var es := [CommitRealtime(v, Asked(st, v))] + es1;
        assert es[1..] == es1;
        assert EventsOf(es, st.cache) == [ChainChange(v, st.cache)] + EventsOf(es1, st.cache);
        assert ([ChainChange(v, st.cache)] + EventsOf(es1, st.cache))[1..] == EventsOf(es1, st.cache);
      }
    }
  }

  lemma EventsOfTwo(a: Effect, b: Effect, cache: Cache)
    ensures EventsOf([a], cache) == if a.CommitSync? || a.CommitRealtime? then [ChainChange(a.v, cache)] else []
    ensures EventsOf([a, b], cache) == EventsOf([a], cache) + EventsOf([b], cache)
  {
    assert [a][1..] == [] && [a, b][1..] == [b] && [b][1..] == [];
  }

  lemma AdvancedStore(st: State, v: Vcc)
    requires st.sync.Syncing? && !Missing(st.cache, v) && Advanced(st, v).Next?
    ensures var o := Advanced(st, v);
            o.state.store == Run(st.store, EventsOf(o.effects, st.cache)) && o.state.cache == st.cache
  {
    var o := Advanced(st, v);
    EventsOfTwo(o.effects[0], o.effects[1], st.cache);
    EventsOfTwo(o.effects[1], o.effects[1], st.cache);
    assert o.effects == [o.effects[0], o.effects[1]];
    RunOne(st.store, ChainChange(v, st.cache));
  }

  lemma {:induction false} NoCommit(es: seq<Effect>, cache: Cache)
    requires forall e :: e in es ==> !e.CommitSync? && !e.CommitRealtime?
    ensures EventsOf(es, cache) == []
  {
    if es != [] { NoCommit(es[1..], cache); }
  }

  lemma BlockStore(st: State, h: CompactHeader, capacity: nat)
    requires OnBlock(st, h, capacity).Next?
    ensures var o := OnBlock(st, h, capacity);
            o.state.store == Run(st.store, EventsOf(o.effects, o.state.cache))
  {
    var st1 := Cached(st, h, capacity);
    match st.sync {
      case Initial =>
      case Synced(_, _) =>
        DrainedCommits(st1);
        DrainedStore(st1);
      case Syncing(last, id, target, parked) =>
        if parked.Some? && !Missing(st1.cache, parked.value) {
          AdvancedStore(st1.(sync := Syncing(last, id, target, None)), parked.value);
        }
    }
  }

  lemma SyncerStore(st: State, id: nat, v: Vcc)
    requires OnSyncerVc(st, id, v).Next?
    ensures var o := OnSyncerVc(st, id, v);
            o.state.store == Run(st.store, EventsOf(o.effects, o.state.cache))
  {
    if !IsEmpty(v) && !Missing(st.cache, v) {
      AdvancedStore(st, v);
    } else {
      NoCommit(OnSyncerVc(st, id, v).effects, st.cache);
    }
  }

  lemma RealtimeStore(st: State, v: Vcc)
    requires OnRealtime(st, v).Next?
    ensures var o := OnRealtime(st, v);
            o.state.store == Run(st.store, EventsOf(o.effects, o.state.cache))
  {
    var o := OnRealtime(st, v);
    if o.effects != [] {
      EventsOfTwo(o.effects[0], o.effects[0], st.cache);
      assert o.effects == [o.effects[0]];
      RunOne(st.store, ChainChange(v, st.cache));
    }
  }

  /** A step changes the store by exactly the chain changes it commits, in order,
      or by the one foreign event it stands for. */
  lemma StepStore(st: State, i: Input, capacity: nat)
    requires React(st, i, capacity).Next?
    ensures React(st, i, capacity).state.store == Run(st.store, StepEvents(st, i, capacity))
  {
    match i {
      case StoreEvent(e) => RunOne(st.store, e);
      case Block(h) => BlockStore(st, h, capacity);
      case SyncerVc(id, v) => SyncerStore(st, id, v);
      case Realtime(v) => RealtimeStore(st, v);
      case Connected(sink, pp) => NoCommit(OnConnected(st, sink, pp).effects, st.cache);
      case _ =>
    }
  }

  /** The store events of a whole run of the processor. */
  function RunEvents(tr: Trace, inputs: seq<Input>, capacity: nat): seq<Event>
    requires RunTrace(tr, inputs, capacity).Some?
    decreases |inputs|
  {
    if inputs == [] then []
    else
      StepEvents(tr.st, inputs[0], capacity)
      + RunEvents(TraceStep(tr, inputs[0], capacity), inputs[1..], capacity)
  }

  lemma {:induction false} RunStore(tr: Trace, inputs: seq<Input>, capacity: nat)
    requires RunTrace(tr, inputs, capacity).Some?
    ensures RunTrace(tr, inputs, capacity).value.st.store == Run(tr.st.store, RunEvents(tr, inputs, capacity))
    decreases |inputs|
  {
    if inputs != [] {
      var es, tr' := StepEvents(tr.st, inputs[0], capacity), TraceStep(tr, inputs[0], capacity);
      StepStore(tr.st, inputs[0], capacity);
      RunStore(tr', inputs[1..], capacity);
      RunConcat(tr.st.store, es, RunEvents(tr', inputs[1..], capacity));
    }
  }

  function NewState(store: Store, cursor: Option<Cursor>): State
  {
    State(Initial, [], map[], [], false, store, cursor)
  }

  // ----- draining the queue after a sync -----

  function Changes(vs: seq<Vcc>, cache: Cache): seq<Event>
  {
    if vs == [] then [] else [ChainChange(vs[0], cache)] + Changes(vs[1..], cache)
  }

  lemma {:induction false} RealtimeEvents(es: seq<Effect>, cache: Cache)
    requires forall e :: e in es ==> e.CommitRealtime?
    ensures EventsOf(es, cache) == Changes(RealtimeCommits(es), cache)
    decreases |es|
  {
    if es != [] {
      assert es[0] in es && forall e :: e in es[1..] ==> e in es;
      RealtimeEvents(es[1..], cache);
      var vs := RealtimeCommits(es[1..]);
      assert RealtimeCommits(es) == [es[0].v] + vs;
      assert ([es[0].v] + vs)[1..] == vs;
    }
  }

  /** The queued changes follow one from the other from `chain` on, up to the first
      that waits for a block, each as legal as a change has to be. */
  ghost predicate LegalQueue(w: World, s: Store, cache: Cache, queue: seq<Vcc>, chain: set<Hash>)
    decreases |queue|
  {
    if queue == [] then true
    else
      var v, e := queue[0], ChainChange(queue[0], cache);
      if IsEmpty(v) then LegalQueue(w, s, cache, queue[1..], chain)
      else
        || Missing(cache, v)
        || (Legal(w, s, chain, e) && LegalQueue(w, Step(s, e), cache, queue[1..], ChainStep(chain, e)))
  }

  function Committing(v: Vcc, es: seq<Event>, cache: Cache): seq<Event>
  {
    if IsEmpty(v) then es else [ChainChange(v, cache)] + es
  }

  lemma DrainedChanges(st: State)
    requires st.sync.Synced? && Drained(st).Next? && !Waits(st)
    ensures IsEmpty(st.queue[0]) || CanApply(st.store, st.cache, st.queue[0])
    ensures Drained(DrainRest(st)).Next?
    ensures Changes(RealtimeCommits(Drained(st).effects), st.cache)
         == Committing(st.queue[0], Changes(RealtimeCommits(Drained(DrainRest(st)).effects), st.cache), st.cache)
  {
    DrainUnfold(st);
    var v, es := st.queue[0], Drained(DrainRest(st)).effects;
    if IsEmpty(v) {
      assert [] + es == es;
    } else {
      CommitFirst(v, Asked(st, v), es);
      var vs := RealtimeCommits(es);
      assert ([v] + vs)[1..] == vs;
    }
  }

  /** A queue is legal exactly when draining it neither panics nor commits anything
      illegal. */
  lemma {:induction false} LegalDrain(w: World, st: State, chain: set<Hash>)
    requires st.sync.Synced? && Sane(w, st.store)
    ensures LegalQueue(w, st.store, st.cache, st.queue, chain) <==>
              && Drained(st).Next?
              && LegalRun(w, st.store, chain, Changes(RealtimeCommits(Drained(st).effects), st.cache))
    decreases |st.queue|
  {
    if Waits(st) && (st.queue == [] || !IsEmpty(st.queue[0])) {
      assert Drained(st) == Next(st, []);
    } else {
      var v, e := st.queue[0], ChainChange(st.queue[0], st.cache);
      if IsEmpty(v) {
        assert !Missing(st.cache, v);
        LegalDrain(w, DrainRest(st), chain);
        if Drained(st).Next? { DrainedChanges(st); }
      } else if Legal(w, st.store, chain, e) {
        LegalCanApply(w, st.store, chain, e);
        ApplyShape(w, st.store, st.cache, chain, v);
        var st1 := DrainRest(st);
        LegalDrain(w, st1, ChainStep(chain, e));
        if Drained(st).Next? {
          DrainedChanges(st);
          RunCons(w, st.store, chain, e, Changes(RealtimeCommits(Drained(st1).effects), st.cache));
        }
      } else if Drained(st).Next? {
        DrainedChanges(st);
      }
    }
  }

  /** Catch-up in the processor.  A store that stood on chain `d` was synced to a
      chain which the real-time changes reach too, though they start from another
      chain.  Draining the queue does not panic, applies its changes in order up to
      one that waits for a block, and leaves the store right for the chain they lead to. */
  lemma DrainConverges(w: World, s: Store, d: set<Hash>, sync: seq<Event>, st: State, chain: set<Hash>, ahead: seq<Event>)
    requires Sane(w, s) && Agreed(w, s, d) && s.tracked.Keys <= d && LegalRun(w, s, d, sync)
    requires st.store == Run(s, sync) && ChainRun(d, sync) == ChainRun(chain, ahead)
    requires st.sync.Synced? && LegalQueue(w, st.store, st.cache, st.queue, chain)
    ensures Drained(st).Next?
    ensures var vs, st' := RealtimeCommits(Drained(st).effects), Drained(st).state;
            var es := Changes(vs, st.cache);
            var s', chain' := st'.store, ChainRun(chain, es);
            && NonEmpty(st.queue) == vs + NonEmpty(st'.queue) && Waits(st')
            && Sane(w, s') && Agreed(w, s', chain')
            && (forall b :: b in Mentioned(es) && b in s'.tracked ==> b in chain')
            && (forall b :: b in Mentioned(es) && b in chain' ==> Complete(w, s', b, st.store.acc.Keys))
            && (forall b :: b !in Mentioned(es) ==>
                  (b in st.store.tracked <==> b in s'.tracked)
                  && (b in st.store.tracked ==> s'.tracked[b] == st.store.tracked[b]))
            && (s'.tracked.Keys <= chain' <==> NoLeftover(st.store, chain, es))
  {
    SyncBringsTo(w, s, d, sync, chain, ahead);
    LegalDrain(w, st, chain);
    var vs := RealtimeCommits(Drained(st).effects);
    var es := Changes(vs, st.cache);
    DrainedCommits(st);
    DrainedInOrder(st);
    DrainedStore(st);
    RealtimeEvents(Drained(st).effects, st.cache);
    CatchUpConvergence(w, st.store, chain, es, ahead);
    BehindTheStore(w, st.store, chain, ahead);
    LeftoversExactly(w, st.store, chain, es);
    NothingPruned(vs, st.cache);
  }

  lemma {:induction false} NothingPruned(vs: seq<Vcc>, cache: Cache)
    ensures Pruned(Changes(vs, cache)) == {}
  {
    if vs != [] {
      NothingPruned(vs[1..], cache);
      assert Changes(vs, cache)[1..] == Changes(vs[1..], cache);
    }
  }

  // ----- the processor over its whole life -----

  /** Part of a processor's life: the inputs it gets from state `st` on, and the
      chain its commits start from.  A restart, and the end of a sync after which
      queued changes are drained, begin a new stretch. */
  datatype Stretch = Stretch(st: State, inputs: seq<Input>, chain: set<Hash>)

  function Traced(x: Stretch, capacity: nat): Option<Trace>
  {
    RunTrace(Trace(x.st, [], []), x.inputs, capacity)
  }

  /** Each stretch starts on the store the one before it left. */
  predicate Lives(s: Store, xs: seq<Stretch>, capacity: nat)
    decreases |xs|
  {
    xs == [] || (
      && xs[0].st.store == s && Traced(xs[0], capacity).Some?
      && Lives(Traced(xs[0], capacity).value.st.store, xs[1..], capacity))
  }

  function LastStore(s: Store, xs: seq<Stretch>, capacity: nat): Store
    requires Lives(s, xs, capacity)
    decreases |xs|
  {
    if xs == [] then s else LastStore(Traced(xs[0], capacity).value.st.store, xs[1..], capacity)
  }

  function Phases(s: Store, xs: seq<Stretch>, capacity: nat): seq<Phase>
    requires Lives(s, xs, capacity)
    decreases |xs|
  {
    if xs == [] then []
    else
      [Phase(xs[0].chain, RunEvents(Trace(xs[0].st, [], []), xs[0].inputs, capacity))]
      + Phases(Traced(xs[0], capacity).value.st.store, xs[1..], capacity)
  }

  lemma {:induction false} LastStoreIsLifeRun(s: Store, xs: seq<Stretch>, capacity: nat)
    requires Lives(s, xs, capacity)
    ensures LastStore(s, xs, capacity) == LifeRun(s, Phases(s, xs, capacity))
    decreases |xs|
  {
    if xs != [] {
      RunStore(Trace(xs[0].st, [], []), xs[0].inputs, capacity);
      var s' := Traced(xs[0], capacity).value.st.store;
      LastStoreIsLifeRun(s', xs[1..], capacity);
      assert Phases(s, xs, capacity)[1..] == Phases(s', xs[1..], capacity);
    }
  }

  /** Every tracked transaction is indexed under its block and that block's score,
      and no transaction is tracked twice. */
  ghost predicate TrackedRight(w: World, s: Store)
  {
    && (forall b, t :: b in s.tracked && t in s.tracked[b] ==>
          t in s.acc && s.acc[t].header == Header(b, w.daa(b)))
    && (forall b, b', t :: b in s.tracked && b' in s.tracked && t in s.tracked[b] && t in s.tracked[b'] ==> b == b')
  }

  lemma TrackedOnChain(w: World, s: Store, chain: set<Hash>)
    requires Agreed(w, s, chain) && s.tracked.Keys <= chain
    ensures TrackedRight(w, s)
  {
    forall b, b', t | b in s.tracked && b' in s.tracked && t in s.tracked[b] && t in s.tracked[b']
      ensures b == b'
    {
      assert s.acc[t].header == Header(b, w.daa(b)) == Header(b', w.daa(b'));
    }
  }

  /** Acceptance agreement of the processor.  From an empty database, or any that
      agrees with the chain it stands on, through syncs, drains, outages and
      restarts, each stretch committing changes that follow from a chain of its own:
      as long as every stretch passes the chain the one before it led to, only
      blocks of the last chain are tracked, their lists are disjoint, and every
      tracked transaction carries its block and score. */
  lemma ProcessorAgreement(w: World, s: Store, at: set<Hash>, xs: seq<Stretch>, capacity: nat)
    requires Sane(w, s) && Agreed(w, s, at) && s.tracked.Keys <= at && Lives(s, xs, capacity)
    requires LegalLife(w, s, Phases(s, xs, capacity)) && Meets(at, Phases(s, xs, capacity))
    ensures LastStore(s, xs, capacity).tracked.Keys <= LifeChain(at, Phases(s, xs, capacity))
    ensures TrackedRight(w, LastStore(s, xs, capacity))
  {
    var phases := Phases(s, xs, capacity);
    LastStoreIsLifeRun(s, xs, capacity);
    LifeOnChain(w, s, at, phases);
    LifeAgrees(w, s, at, phases);
    TrackedOnChain(w, LastStore(s, xs, capacity), LifeChain(at, phases));
  }

  /** Whatever the stretches leave over: after any joined life, a crash and a
      restart, the first connection asks again for the sender of every unresolved
      transaction that a block of the last chain accepted; and when the stretches
      meet, those are all the tracked blocks there are. */
  lemma RestartAsksAgain(w: World, s: Store, at: set<Hash>, xs: seq<Stretch>, capacity: nat,
                         cursor: Option<Cursor>, sink: Tip, pp: Hash)
    requires Sane(w, s) && Agreed(w, s, at) && Covered(w, s, at) && Lives(s, xs, capacity)
    requires LegalLife(w, s, Phases(s, xs, capacity)) && SafeLife(w, s, Phases(s, xs, capacity))
    requires Joined(s, at, Phases(s, xs, capacity))
    ensures var s', chain := LastStore(s, xs, capacity), LifeChain(at, Phases(s, xs, capacity));
            var o := OnConnected(NewState(s', cursor), sink, pp);
            && o.Next? && o.effects != [] && o.effects[0].RequestPending?
            && forall b, t :: b in chain && b in s'.tracked && t in s'.tracked[b] && HasEntries(s', t) ==>
                 PendingKey(w.daa(b), t) in o.effects[0].keys
    ensures s.tracked.Keys <= at && Meets(at, Phases(s, xs, capacity)) ==>
              LastStore(s, xs, capacity).tracked.Keys <= LifeChain(at, Phases(s, xs, capacity))
  {
    LastStoreIsLifeRun(s, xs, capacity);
    LifeAgrees(w, s, at, Phases(s, xs, capacity));
    if s.tracked.Keys <= at && Meets(at, Phases(s, xs, capacity)) {
      LifeOnChain(w, s, at, Phases(s, xs, capacity));
    }
  }

  // ----- the cursor over a run -----

  function TipCursor(v: Vcc, cache: Cache): Cursor
    requires v.added != [] && v.added[|v.added| - 1] in cache
  {
    var b := v.added[|v.added| - 1];
    Cursor(cache[b].work, b, cache[b].daa)
  }

  /** The tips of the changes a step commits, in order. */
  function TipsOf(es: seq<Effect>, cache: Cache): seq<Cursor>
  {
    if es == [] then []
    else
      (if (es[0].CommitSync? || es[0].CommitRealtime?) && es[0].v.added != []
          && es[0].v.added[|es[0].v.added| - 1] in cache
       then [TipCursor(es[0].v, cache)] else [])
      + TipsOf(es[1..], cache)
  }

  /** The cursor after it was offered `tips` one after the other. */
  function Offered(c: Option<Cursor>, tips: seq<Cursor>): Option<Cursor>
    decreases |tips|
  {
    if tips == [] then c else Offered(Some(Advance(c, tips[0])), tips[1..])
  }

  lemma {:induction false} OfferedConcat(c: Option<Cursor>, a: seq<Cursor>, b: seq<Cursor>)
    ensures Offered(c, a + b) == Offered(Offered(c, a), b)
    decreases |a|
  {
    if a == [] {
      assert a + b == b;
    } else {
      assert (a + b)[1..] == a[1..] + b;
      OfferedConcat(Some(Advance(c, a[0])), a[1..], b);
    }
  }

  lemma {:induction false} OfferedIsCursorAfter(tips: seq<Cursor>)
    ensures Offered(None, tips) == CursorAfter(tips)
    decreases |tips|
  {
    if tips != [] {
      var n := |tips| - 1;
      assert tips == tips[..n] + [tips[n]];
      OfferedConcat(None, tips[..n], [tips[n]]);
      OfferedIsCursorAfter(tips[..n]);
      assert [tips[n]][1..] == [];
    }
  }

  lemma TipsOfTwo(a: Effect, b: Effect, cache: Cache)
    ensures TipsOf([a, b], cache) == TipsOf([a], cache) + TipsOf([b], cache)
  {
    assert [a][1..] == [] && [a, b][1..] == [b] && [b][1..] == [];
  }

  lemma TipsOfOne(a: Effect, cache: Cache)
    requires (a.CommitSync? || a.CommitRealtime?) && a.v.added != [] && a.v.added[|a.v.added| - 1] in cache
    ensures TipsOf([a], cache) == [TipCursor(a.v, cache)]
  {
    assert [a][1..] == [];
  }

  lemma OfferedOne(c: Option<Cursor>, t: Cursor)
    ensures Offered(c, [t]) == Some(Advance(c, t))
  {
    assert [t][1..] == [];
  }

  lemma {:induction false} NoTip(es: seq<Effect>, cache: Cache)
    requires forall e :: e in es ==> !e.CommitSync? && !e.CommitRealtime?
    ensures TipsOf(es, cache) == []
  {
    if es != [] { NoTip(es[1..], cache); }
  }

  lemma {:induction false} DrainedCursor(st: State)
    requires st.sync.Synced? && Drained(st).Next?
    ensures Drained(st).state.cursor == Offered(st.cursor, TipsOf(Drained(st).effects, st.cache))
    decreases |st.queue|
  {
    if Waits(st) {
      DrainStops(st);
    } else {
      DrainUnfold(st);
      var v, st1 := st.queue[0], DrainRest(st);
      DrainedCursor(st1);
      var es1 := Drained(st1).effects;
      if IsEmpty(v) {
        assert [] + es1 == es1;
      } else {
        var c := CommitRealtime(v, Asked(st, v));
        assert ([c] + es1)[1..] == es1;
        assert TipsOf([c] + es1, st.cache) == [TipCursor(v, st.cache)] + TipsOf(es1, st.cache);
        OfferedConcat(st.cursor, [TipCursor(v, st.cache)], TipsOf(es1, st.cache));
        OfferedOne(st.cursor, TipCursor(v, st.cache));
      }
    }
  }

  lemma AdvancedCursor(st: State, v: Vcc)
    requires st.sync.Syncing? && !Missing(st.cache, v) && Advanced(st, v).Next?
    ensures Advanced(st, v).state.cursor == Offered(st.cursor, TipsOf(Advanced(st, v).effects, st.cache))
  {
    var o := Advanced(st, v);
    var c := CommitSync(v, Asked(st, v));
    TipsOfOne(c, st.cache);
    TipsOfTwo(o.effects[0], o.effects[1], st.cache);
    NoTip([SendAck(Stop)], st.cache);
    NoTip([SendAck(Continue)], st.cache);
    assert o.effects == [o.effects[0], o.effects[1]];
    OfferedOne(st.cursor, TipCursor(v, st.cache));
  }

  lemma SyncerCursor(st: State, id: nat, v: Vcc)
    requires OnSyncerVc(st, id, v).Next?
    ensures var o := OnSyncerVc(st, id, v);
            o.state.cursor == Offered(st.cursor, TipsOf(o.effects, o.state.cache))
  {
    if !IsEmpty(v) && !Missing(st.cache, v) {
      AdvancedCursor(st, v);
    } else {
      NoTip(OnSyncerVc(st, id, v).effects, st.cache);
    }
  }

  lemma RealtimeCursor(st: State, v: Vcc)
    requires OnRealtime(st, v).Next?
    ensures var o := OnRealtime(st, v);
            o.state.cursor == Offered(st.cursor, TipsOf(o.effects, o.state.cache))
  {
    var o := OnRealtime(st, v);
    if o.effects != [] {
      TipsOfOne(o.effects[0], st.cache);
      assert o.effects == [o.effects[0]];
      OfferedOne(st.cursor, TipCursor(v, st.cache));
    }
  }

  lemma StepCursor(st: State, i: Input, capacity: nat)
    requires React(st, i, capacity).Next?
    ensures var o := React(st, i, capacity);
            o.state.cursor == Offered(st.cursor, TipsOf(o.effects, o.state.cache))
  {
    match i {
      case Block(h) => BlockCursor(st, h, capacity);
      case SyncerVc(id, v) => SyncerCursor(st, id, v);
      case Realtime(v) => RealtimeCursor(st, v);
      case Connected(sink, pp) => NoTip(OnConnected(st, sink, pp).effects, st.cache);
      case _ =>
    }
  }

  lemma BlockCursor(st: State, h: CompactHeader, capacity: nat)
    requires OnBlock(st, h, capacity).Next?
    ensures var o := OnBlock(st, h, capacity);
            o.state.cursor == Offered(st.cursor, TipsOf(o.effects, o.state.cache))
  {
    var st1 := Cached(st, h, capacity);
    match st.sync {
      case Initial =>
      case Synced(_, _) =>
        DrainedCommits(st1);
        DrainedCursor(st1);
      case Syncing(last, id, target, parked) =>
        if parked.Some? && !Missing(st1.cache, parked.value) {
          var st2 := st1.(sync := Syncing(last, id, target, None));
          AdvancedCursor(st2, parked.value);
          AdvancedStore(st2, parked.value);
        }
    }
  }

  /** The tips committed over a whole run. */
  function RunTips(tr: Trace, inputs: seq<Input>, capacity: nat): seq<Cursor>
    requires RunTrace(tr, inputs, capacity).Some?
    decreases |inputs|
  {
    if inputs == [] then []
    else
      var o := React(tr.st, inputs[0], capacity);
      TipsOf(o.effects, o.state.cache) + RunTips(TraceStep(tr, inputs[0], capacity), inputs[1..], capacity)
  }

  lemma {:induction false} RunCursor(tr: Trace, inputs: seq<Input>, capacity: nat)
    requires RunTrace(tr, inputs, capacity).Some?
    ensures RunTrace(tr, inputs, capacity).value.st.cursor == Offered(tr.st.cursor, RunTips(tr, inputs, capacity))
    decreases |inputs|
  {
    if inputs != [] {
      var o, tr' := React(tr.st, inputs[0], capacity), TraceStep(tr, inputs[0], capacity);
      StepCursor(tr.st, inputs[0], capacity);
      RunCursor(tr', inputs[1..], capacity);
      OfferedConcat(tr.st.cursor, TipsOf(o.effects, o.state.cache), RunTips(tr', inputs[1..], capacity));
    }
  }

  function Stored(c: Option<Cursor>): seq<Cursor>
  {
    if c.Some? then [c.value] else []
  }

  lemma OfferedStored(c: Option<Cursor>, tips: seq<Cursor>)
    ensures Offered(c, tips) == CursorAfter(Stored(c) + tips)
  {
    OfferedIsCursorAfter(Stored(c) + tips);
    OfferedConcat(None, Stored(c), tips);
    if c.Some? { OfferedOne(None, c.value); }
  }

  /** Cursor monotonicity over every run of the processor, on whatever cursor it
      starts with: the cursor is the first one of greatest blue work among the stored
      one and the committed tips, sync responses, real-time changes and replays of
      older tips alike. */
  lemma CursorOverRun(tr: Trace, inputs: seq<Input>, capacity: nat) returns (i: nat)
    requires RunTrace(tr, inputs, capacity).Some? && Stored(tr.st.cursor) + RunTips(tr, inputs, capacity) != []
    ensures var tips := Stored(tr.st.cursor) + RunTips(tr, inputs, capacity);
            FirstGreatest(tips, i) && RunTrace(tr, inputs, capacity).value.st.cursor == Some(tips[i])
  {
    RunCursor(tr, inputs, capacity);
    OfferedStored(tr.st.cursor, RunTips(tr, inputs, capacity));
    i := CursorIsFirstGreatest(Stored(tr.st.cursor) + RunTips(tr, inputs, capacity));
  }
}
