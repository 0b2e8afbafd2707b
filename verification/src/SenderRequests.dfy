/** Which senders the processor asks for, and that it asks for every transaction
    that becomes pending. */
module SenderRequests {
  import opened Bytes
  import opened AcceptanceLog
  import opened ChainStore
  import opened VirtualProcessor
  import opened RealtimeOrder
  import opened Pipeline

  /** The change lists `k.tx` under a block of score `k.daa`, and its acceptance
      record holds deferred entries. */
  ghost predicate AsksFor(acc: View, cache: Cache, v: Vcc, k: PendingKey)
  {
    && k.tx in acc && acc[k.tx].entries != []
    && exists a :: a in v.accepted && k.tx in a.txs && a.block in cache && cache[a.block].daa == k.daa
  }

  predicate Commits(e: Effect)
  {
    e.CommitSync? || e.CommitRealtime?
  }

  ghost predicate RightRequests(acc: View, cache: Cache, e: Effect)
  {
    Commits(e) ==> forall k :: k in e.requests <==> AsksFor(acc, cache, e.v, k)
  }

  lemma {:induction false} RequestsExactly(acc: View, cache: Cache, v: Vcc, k: PendingKey)
    requires forall a :: a in v.accepted ==> a.block in cache
    ensures k in RequestsAll(acc, cache, v.accepted) <==> AsksFor(acc, cache, v, k)
    decreases |v.accepted|
  {
    if v.accepted != [] {
      var a, rest := v.accepted[0], v.(accepted := v.accepted[1..]);
      assert a in v.accepted && forall x :: x in v.accepted <==> x == a || x in rest.accepted;
      RequestsExactly(acc, cache, rest, k);
      assert k in Requests(acc, a.txs, DaaOf(cache, a.block)) <==>
        k.tx in a.txs && k.tx in acc && acc[k.tx].entries != [] && cache[a.block].daa == k.daa;
    }
  }

  lemma AskedRight(st: State, v: Vcc)
    requires CanApply(st.store, st.cache, v)
    ensures forall k :: k in Asked(st, v) <==> AsksFor(st.store.acc, st.cache, v, k)
  {
    forall k ensures k in Asked(st, v) <==> AsksFor(st.store.acc, st.cache, v, k) {
      RequestsExactly(st.store.acc, st.cache, v, k);
    }
  }

  lemma SameAsks(acc: View, acc': View, cache: Cache, v: Vcc, k: PendingKey)
    requires SameEntries(acc, acc')
    ensures AsksFor(acc, cache, v, k) <==> AsksFor(acc', cache, v, k)
  {
  }

  lemma SameRight(acc: View, acc': View, cache: Cache, e: Effect)
    requires SameEntries(acc, acc') && RightRequests(acc, cache, e)
    ensures RightRequests(acc', cache, e)
  {
    if Commits(e) {
      forall k ensures k in e.requests <==> AsksFor(acc', cache, e.v, k) {
        SameAsks(acc, acc', cache, e.v, k);
      }
    }
  }

  lemma {:induction false} DrainedRight(st: State)
    requires st.sync.Synced? && Drained(st).Next?
    ensures forall e :: e in Drained(st).effects ==> RightRequests(st.store.acc, st.cache, e)
    decreases |st.queue|
  {
    if Waits(st) {
      DrainStops(st);
    } else {
      DrainUnfold(st);
      var v, st1 := st.queue[0], DrainRest(st);
      DrainedRight(st1);
      if !IsEmpty(v) {
        AskedRight(st, v);
        RequestsBecomePending(st.store, st.cache, v);
      }
      forall e | e in Drained(st1).effects ensures RightRequests(st.store.acc, st.cache, e) {
        SameRight(st1.store.acc, st.store.acc, st.cache, e);
      }
    }
  }

  lemma AdvancedRight(st: State, v: Vcc)
    requires st.sync.Syncing? && !Missing(st.cache, v) && Advanced(st, v).Next?
    ensures Advanced(st, v).state.cache == st.cache
    ensures forall e :: e in Advanced(st, v).effects ==> RightRequests(st.store.acc, st.cache, e)
  {
    AskedRight(st, v);
  }

  /** Every commit of every handler asks for exactly the senders its change calls for. */
  lemma StepRequests(st: State, i: Input, capacity: nat)
    requires React(st, i, capacity).Next?
    ensures var o := React(st, i, capacity);
            forall e :: e in o.effects ==> RightRequests(st.store.acc, o.state.cache, e)
  {
    match i {
      case Block(h) =>
        var st1 := Cached(st, h, capacity);
        match st.sync {
          case Initial =>
          case Synced(_, _) =>
            DrainedRight(st1);
            DrainedCommits(st1);
          case Syncing(last, id, target, parked) =>
            if parked.Some? && !Missing(st1.cache, parked.value) {
              AdvancedRight(st1.(sync := Syncing(last, id, target, None)), parked.value);
            }
        }
      case SyncerVc(id, v) =>
        if !IsEmpty(v) && !Missing(st.cache, v) { AdvancedRight(st, v); }
      case Realtime(v) =>
        if React(st, i, capacity).effects != [] { AskedRight(st, v); }
      case _ =>
    }
  }

  // ----- over runs -----

  /** Everything the processor does outside over a run. */
  function RunEffects(tr: Trace, inputs: seq<Input>, capacity: nat): seq<Effect>
    requires RunTrace(tr, inputs, capacity).Some?
    decreases |inputs|
  {
    if inputs == [] then []
    else
      React(tr.st, inputs[0], capacity).effects
      + RunEffects(TraceStep(tr, inputs[0], capacity), inputs[1..], capacity)
  }

  predicate Requested(es: seq<Effect>, k: PendingKey)
  {
    exists e :: e in es && Commits(e) && k in e.requests
  }

  lemma {:induction false} CommitsPending(s: Store, acc: View, cache: Cache, es: seq<Effect>, k: PendingKey)
    requires SameEntries(s.acc, acc) && (forall e :: e in es ==> RightRequests(acc, cache, e))
    requires forall e :: e in es && Commits(e) ==> forall a :: a in e.v.accepted ==> a.block in cache
    requires k !in s.pending && k in Run(s, EventsOf(es, cache)).pending
    ensures Requested(es, k)
    decreases |es|
  {
    if es != [] {
      var e, rest := es[0], es[1..];
      assert e in es && forall x :: x in rest ==> x in es;
      if Commits(e) {
        var c := ChainChange(e.v, cache);
        assert EventsOf(es, cache) == [c] + EventsOf(rest, cache);
        assert ([c] + EventsOf(rest, cache))[1..] == EventsOf(rest, cache);
        RequestsBecomePending(s, cache, e.v);
        if k in Step(s, c).pending {
          RequestsExactly(s.acc, cache, e.v, k);
          SameAsks(s.acc, acc, cache, e.v, k);
        } else {
          CommitsPending(Step(s, c), acc, cache, rest, k);
        }
      } else {
        assert EventsOf(es, cache) == EventsOf(rest, cache);
        CommitsPending(s, acc, cache, rest, k);
      }
    }
  }

  /** A handler's commits find the blocks of their lists in the cache. */
  lemma {:induction false} DrainedListsCached(st: State)
    requires st.sync.Synced? && Drained(st).Next?
    ensures forall e :: e in Drained(st).effects && Commits(e) ==> forall a :: a in e.v.accepted ==> a.block in st.cache
    decreases |st.queue|
  {
    if Waits(st) {
      DrainStops(st);
    } else {
      DrainUnfold(st);
      DrainedListsCached(DrainRest(st));
    }
  }

  lemma ListsCached(st: State, i: Input, capacity: nat)
    requires React(st, i, capacity).Next?
    ensures var o := React(st, i, capacity);
            forall e :: e in o.effects && Commits(e) ==> forall a :: a in e.v.accepted ==> a.block in o.state.cache
  {
    if i.Block? && st.sync.Synced? {
      DrainedListsCached(Cached(st, i.header, capacity));
      DrainedCommits(Cached(st, i.header, capacity));
    }
  }

  lemma StepPending(st: State, i: Input, capacity: nat, k: PendingKey)
    requires React(st, i, capacity).Next?
    requires k !in st.store.pending && k in React(st, i, capacity).state.store.pending
    ensures Requested(React(st, i, capacity).effects, k)
  {
    var o := React(st, i, capacity);
    if !i.StoreEvent? {
      StepRequests(st, i, capacity);
      ListsCached(st, i, capacity);
      StepStore(st, i, capacity);
      CommitsPending(st.store, st.store.acc, o.state.cache, o.effects, k);
    }
  }

  /** Whatever becomes pending in a run of the processor, some commit of the run has
      asked for. */
  lemma {:induction false} PendingWasAsked(tr: Trace, inputs: seq<Input>, capacity: nat, k: PendingKey)
    requires RunTrace(tr, inputs, capacity).Some? && k !in tr.st.store.pending
    requires k in RunTrace(tr, inputs, capacity).value.st.store.pending
    ensures Requested(RunEffects(tr, inputs, capacity), k)
    decreases |inputs|
  {
    if inputs != [] {
      var tr' := TraceStep(tr, inputs[0], capacity);
      var es, rest := React(tr.st, inputs[0], capacity).effects, RunEffects(tr', inputs[1..], capacity);
      if k in tr'.st.store.pending {
        StepPending(tr.st, inputs[0], capacity, k);
        var e :| e in es && Commits(e) && k in e.requests;
        assert e in es + rest;
      } else {
        PendingWasAsked(tr', inputs[1..], capacity, k);
        var e :| e in rest && Commits(e) && k in e.requests;
        assert e in es + rest;
      }
    }
  }
}
