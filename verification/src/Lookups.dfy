/** When the processor fails to find what a chain change needs in its store or its
    block cache, over every interleaving of the sync protocol. */
module Lookups {
  import opened Bytes
  import opened ChainStore
  import opened VirtualProcessor
  import opened RealtimeOrder
  import opened SyncProtocol
  import opened Pipeline

  /** Every tracked transaction is indexed. */
  ghost predicate NoDangling(s: Store)
  {
    forall b, t :: b in s.tracked && t in s.tracked[b] ==> t in s.acc
  }

  lemma {:induction false} UntrackAllDangles(s: Store, cache: Cache, bs: seq<Hash>)
    requires NoDangling(s)
    ensures NoDangling(UntrackAll(s, cache, bs))
    decreases |bs|
  {
    if bs != [] {
      assert NoDangling(Untrack(s, bs[0], DaaOf(cache, bs[0])));
      UntrackAllDangles(Untrack(s, bs[0], DaaOf(cache, bs[0])), cache, bs[1..]);
    }
  }

  lemma {:induction false} TrackAllDangles(s: Store, cache: Cache, accepted: seq<AcceptedTxs>)
    requires NoDangling(s)
    ensures NoDangling(TrackAll(s, cache, accepted))
    decreases |accepted|
  {
    if accepted != [] {
      var a := accepted[0];
      assert NoDangling(Track(s, a.block, DaaOf(cache, a.block), a.txs));
      TrackAllDangles(Track(s, a.block, DaaOf(cache, a.block), a.txs), cache, accepted[1..]);
    }
  }

  /** No event, legal or not, leaves a tracked transaction unindexed. */
  lemma StepDangles(s: Store, e: Event)
    requires NoDangling(s)
    ensures NoDangling(Step(s, e))
  {
    if e.ChainChange? {
      UntrackAllDangles(s, e.cache, e.v.removed);
      TrackAllDangles(UntrackAll(s, e.cache, e.v.removed), e.cache, e.v.accepted);
    }
  }

  lemma {:induction false} RunDangles(s: Store, es: seq<Event>)
    requires NoDangling(s)
    ensures NoDangling(ChainStore.Run(s, es))
    decreases |es|
  {
    if es != [] {
      StepDangles(s, es[0]);
      RunDangles(Step(s, es[0]), es[1..]);
    }
  }

  /** The tracked blocks a change removes and the blocks it has lists for are cached. */
  predicate Fits(s: Store, cache: Cache, v: Vcc)
  {
    && (forall b :: b in v.removed && b in s.tracked ==> b in cache)
    && (forall a :: a in v.accepted ==> a.block in cache)
  }

  lemma FitsExactly(s: Store, cache: Cache, v: Vcc)
    requires NoDangling(s) && v.added != [] && !Missing(cache, v)
    ensures CanApply(s, cache, v) <==> Fits(s, cache, v)
  {
    assert v.added[|v.added| - 1] in v.added;
  }

  /** What the node promises makes a change fit as long as the blocks it removes have
      not been evicted. */
  lemma PromisedFits(s: Store, cache: Cache, v: Vcc)
    requires Blocks(v.accepted) <= Elements(v.added) && !Missing(cache, v)
    requires forall b :: b in v.removed && b in s.tracked ==> b in cache
    ensures Fits(s, cache, v)
  {
    forall a | a in v.accepted ensures a.block in cache {
      assert a.block in Blocks(v.accepted);
    }
  }

  /** Every queued change fits when its turn comes, up to the first that waits. */
  predicate QueueFits(s: Store, cache: Cache, queue: seq<Vcc>)
    decreases |queue|
  {
    if queue == [] then true
    else
      var v := queue[0];
      if IsEmpty(v) then QueueFits(s, cache, queue[1..])
      else Missing(cache, v) || (Fits(s, cache, v) && QueueFits(Apply(s, cache, v), cache, queue[1..]))
  }

  lemma {:induction false} DrainFits(st: State)
    requires st.sync.Synced? && NoDangling(st.store) && forall v :: v in st.queue ==> Proper(v)
    ensures Drained(st) == Panic(StoreLookup) <==> !QueueFits(st.store, st.cache, st.queue)
    decreases |st.queue|
  {
    if st.queue != [] {
      var v := st.queue[0];
      assert v in st.queue && forall x :: x in st.queue[1..] ==> x in st.queue;
      if IsEmpty(v) {
        DrainFits(DrainRest(st));
      } else if !Missing(st.cache, v) {
        FitsExactly(st.store, st.cache, v);
        if CanApply(st.store, st.cache, v) {
          StepDangles(st.store, ChainChange(v, st.cache));
          DrainFits(DrainRest(st));
        }
      }
    }
  }

  /** Whatever the step applies fits. */
  predicate StepFits(p: State, i: Input, capacity: nat)
  {
    match i
    case SyncerVc(id, v) => Holds(p, id) && !IsEmpty(v) && !Missing(p.cache, v) ==> Fits(p.store, p.cache, v)
    case Realtime(v) =>
      p.sync.Synced? && p.queue == [] && !IsEmpty(v) && !Missing(p.cache, v) ==> Fits(p.store, p.cache, v)
    case Block(h) =>
      var cache := Cached(p, h, capacity).cache;
      (match p.sync
       case Initial => true
       case Synced(_, _) => QueueFits(p.store, cache, p.queue)
       case Syncing(_, _, _, parked) =>
         parked.Some? && !Missing(cache, parked.value) ==> Fits(p.store, cache, parked.value))
    case _ => true
  }

  /** The changes a step may have to apply add a block, unless they are empty. */
  ghost predicate AllProper(p: State, i: Input)
  {
    && (forall v :: v in p.queue ==> Proper(v))
    && (p.sync.Syncing? && p.sync.parked.Some? ==> Proper(p.sync.parked.value) && !IsEmpty(p.sync.parked.value))
    && (i.SyncerVc? || i.Realtime? ==> Proper(i.v))
  }

  lemma StepFitsExactly(p: State, i: Input, capacity: nat)
    requires NoDangling(p.store) && AllProper(p, i)
    ensures React(p, i, capacity) == Panic(StoreLookup) <==> !StepFits(p, i, capacity)
  {
    match i {
      case SyncerVc(id, v) =>
        if !IsEmpty(v) && !Missing(p.cache, v) { FitsExactly(p.store, p.cache, v); }
      case Realtime(v) =>
        if !IsEmpty(v) && !Missing(p.cache, v) { FitsExactly(p.store, p.cache, v); }
      case Block(h) =>
        var p1 := Cached(p, h, capacity);
        if p.sync.Synced? {
          DrainFits(p1);
        } else if p.sync.Syncing? && p.sync.parked.Some? && !Missing(p1.cache, p.sync.parked.value) {
          FitsExactly(p.store, p1.cache, p.sync.parked.value);
        }
      case _ =>
    }
  }

  // ----- in the protocol -----

  /** What an action feeds the processor, if anything. */
  function InputOf(sys: System, a: Action): Option<Input>
    requires Enabled(sys, a)
  {
    match a
    case Feed(i) => Some(i)
    case Deliver =>
      (match sys.net.channel[0]
       case Response(id, v, _) => Some(SyncerVc(id, v))
       case Stopped(id) => Some(SyncerStopped(id)))
    case _ => None
  }

  ghost predicate ActionFits(sys: System, a: Action, capacity: nat)
    requires Enabled(sys, a)
  {
    InputOf(sys, a).Some? ==> StepFits(sys.proc, InputOf(sys, a).value, capacity)
  }

  lemma ActionProper(sys: System, a: Action)
    requires Inv(sys) && Enabled(sys, a) && Promised(sys, a) && InputOf(sys, a).Some?
    ensures AllProper(sys.proc, InputOf(sys, a).value)
  {
    if a.Deliver? && sys.net.channel[0].Response? {
      var m, id := sys.net.channel[0], sys.net.channel[0].id;
      assert m in sys.net.channel;
      assert Of(sys.net.channel, id) == [m] + Of(sys.net.channel[1..], id);
    }
  }

  /** An action ends the run on a lookup exactly when what it applies does not fit;
      otherwise the store still tracks only indexed transactions. */
  lemma ActionFitsExactly(sys: System, a: Action, capacity: nat)
    requires Inv(sys) && NoDangling(sys.proc.store) && Enabled(sys, a) && Promised(sys, a)
    ensures var r := Perform(sys, a, capacity);
            && (r == Ended(Panic(StoreLookup)) <==> !ActionFits(sys, a, capacity))
            && (r.Live? ==> NoDangling(r.sys.proc.store))
  {
    var i := InputOf(sys, a);
    if i.Some? {
      ActionProper(sys, a);
      StepFitsExactly(sys.proc, i.value, capacity);
      if React(sys.proc, i.value, capacity).Next? {
        StepStore(sys.proc, i.value, capacity);
        RunDangles(sys.proc.store, StepEvents(sys.proc, i.value, capacity));
      }
    }
  }

  /** Everything applied along the run fits. */
  ghost predicate FittingRun(sys: System, actions: seq<Action>, capacity: nat, r: Result)
    requires SyncProtocol.Run(sys, actions, capacity, r)
    decreases |actions|
  {
    actions == [] || (
      && ActionFits(sys, actions[0], capacity)
      && (Perform(sys, actions[0], capacity).Live? ==>
            FittingRun(Perform(sys, actions[0], capacity).sys, actions[1..], capacity, r)))
  }

  lemma {:induction false} RunFits(sys: System, actions: seq<Action>, capacity: nat, r: Result)
    requires Inv(sys) && NoDangling(sys.proc.store) && SyncProtocol.Run(sys, actions, capacity, r)
    ensures r == Ended(Panic(StoreLookup)) <==> !FittingRun(sys, actions, capacity, r)
    ensures r.Live? ==> NoDangling(r.sys.proc.store)
    decreases |actions|
  {
    if actions != [] {
      OneStep(sys, actions, capacity, r);
      ActionFitsExactly(sys, actions[0], capacity);
      var next := Perform(sys, actions[0], capacity);
      if next.Live? { RunFits(next.sys, actions[1..], capacity, r); }
    }
  }

  /** The protocol without lookup failures.  Over every interleaving before shutdown,
      on any store that tracks only indexed transactions: a run ends in a failed
      lookup exactly when some change it applies does not fit, and a run in which
      everything fits ends by itself only because the current syncer failed. */
  lemma LookupsSucceed(sys: System, actions: seq<Action>, capacity: nat, r: Result)
    requires Fresh(sys) && NoDangling(sys.proc.store) && SyncProtocol.Run(sys, actions, capacity, r)
    ensures r == Ended(Panic(StoreLookup)) <==> !FittingRun(sys, actions, capacity, r)
    ensures FittingRun(sys, actions, capacity, r) ==> r.Live? || r == Ended(Bail)
  {
    AckProtocol(sys, actions, capacity, r);
    RunFits(sys, actions, capacity, r);
  }
}
