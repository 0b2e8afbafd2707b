/** How the processor ends when it is told to shut down. */
module Shutdown {
  import opened Bytes
  import opened ChainStore
  import opened VirtualProcessor
  import opened RealtimeOrder
  import opened SyncTarget

  /** The syncer whose end concerns the processor: the one it syncs with, or the last
      one it synced with. */
  function Current(st: State): nat
    requires !st.sync.Initial?
  {
    if st.sync.Syncing? then st.sync.syncerId else st.sync.lastSyncerId
  }

  lemma {:induction false} DrainedKeepsEnd(st: State)
    requires st.sync.Synced? && Drained(st).Next?
    ensures var st' := Drained(st).state;
            st'.sync.Synced? && st'.sync.lastSyncerId == st.sync.lastSyncerId && st'.shuttingDown == st.shuttingDown
    decreases |st.queue|
  {
    if Waits(st) {
      DrainStops(st);
    } else {
      DrainUnfold(st);
      DrainedKeepsEnd(DrainRest(st));
    }
  }

  /** No input takes the shutdown back, and only a connection brings another syncer. */
  lemma StepStaysDown(st: State, i: Input, capacity: nat)
    requires !st.sync.Initial? && React(st, i, capacity).Next?
    ensures var st' := React(st, i, capacity).state;
            && st'.shuttingDown == st.shuttingDown && !st'.sync.Initial? && Current(st') >= Current(st)
            && (!i.Connected? ==> Current(st') == Current(st))
  {
    if i.Block? && st.sync.Synced? { DrainedKeepsEnd(Cached(st, i.header, capacity)); }
  }

  lemma {:induction false} RunStaysDown(tr: Trace, inputs: seq<Input>, capacity: nat)
    requires !tr.st.sync.Initial? && RunTrace(tr, inputs, capacity).Some?
    ensures var st' := RunTrace(tr, inputs, capacity).value.st;
            && st'.shuttingDown == tr.st.shuttingDown && !st'.sync.Initial? && Current(st') >= Current(tr.st)
            && ((forall i :: i in inputs ==> !i.Connected?) ==> Current(st') == Current(tr.st))
    decreases |inputs|
  {
    if inputs != [] {
      assert inputs[0] in inputs && forall i :: i in inputs[1..] ==> i in inputs;
      StepStaysDown(tr.st, inputs[0], capacity);
      RunStaysDown(TraceStep(tr, inputs[0], capacity), inputs[1..], capacity);
    }
  }

  /** Shutting down.  Without a sync the processor exits at once.  During one it tells
      the syncer to stop and goes on; whatever it still gets, it exits cleanly on the
      stop notice of the syncer that is current then, which is the one it told to stop
      unless a new connection came in between, and ignores all other notices. */
  lemma ShutsDown(st: State, inputs: seq<Input>, capacity: nat, id: nat)
    ensures OnShutdown(st) == Exit <==> !st.sync.Syncing?
    ensures st.sync.Syncing? ==> OnShutdown(st).Next? && OnShutdown(st).effects == [SendAck(Stop)]
                                 && OnShutdown(st).state.sync == st.sync
    ensures st.sync.Syncing? && RunTrace(Trace(OnShutdown(st).state, [], []), inputs, capacity).Some? ==>
              var st' := RunTrace(Trace(OnShutdown(st).state, [], []), inputs, capacity).value.st;
              && !st'.sync.Initial?
              && (OnSyncerStopped(st', id) == Exit <==> id == Current(st'))
              && (id != Current(st') ==> OnSyncerStopped(st', id) == Next(st', []))
              && ((forall i :: i in inputs ==> !i.Connected?) ==> Current(st') == st.sync.syncerId)
  {
    if st.sync.Syncing? && RunTrace(Trace(OnShutdown(st).state, [], []), inputs, capacity).Some? {
      RunStaysDown(Trace(OnShutdown(st).state, [], []), inputs, capacity);
    }
  }

  /** Before any shutdown a stop notice never ends the processor cleanly. */
  lemma NeverExitsUnasked(st: State, id: nat)
    requires !st.shuttingDown
    ensures OnSyncerStopped(st, id) != Exit
    ensures OnSyncerStopped(st, id) == Bail <==> st.sync.Syncing? && id == st.sync.syncerId
  {
  }
}
