/** When the processor stops syncing: not before its last accepting block has
    reached the sink announced by the latest connection. */
module SyncTarget {
  import opened Bytes
  import opened ChainStore
  import opened VirtualProcessor
  import opened RealtimeOrder

  /** The last accepting block is the sink, or lies on more work than it. */
  predicate Meets(last: Tip, sink: Tip)
  {
    last.hash == sink.hash || last.work > sink.work
  }

  /** The sink announced last, and whether the last accepting block has met it
      at some moment since. */
  datatype Goal = Goal(st: State, sink: Option<Tip>, met: bool)

  predicate MetNow(st: State, sink: Tip)
  {
    !st.sync.Initial? && Meets(st.sync.last, sink)
  }

  function GoalStep(g: Goal, i: Input, capacity: nat): Goal
    requires React(g.st, i, capacity).Next?
  {
    var st := React(g.st, i, capacity).state;
    if i.Connected? then Goal(st, Some(i.sink), MetNow(st, i.sink))
    else Goal(st, g.sink, g.met || (g.sink.Some? && MetNow(st, g.sink.value)))
  }

  function GoalRun(g: Goal, inputs: seq<Input>, capacity: nat): Option<Goal>
    decreases |inputs|
  {
    if inputs == [] then Some(g)
    else if !React(g.st, inputs[0], capacity).Next? then None
    else GoalRun(GoalStep(g, inputs[0], capacity), inputs[1..], capacity)
  }

  predicate OnTarget(g: Goal)
  {
    match g.st.sync
    case Initial => g.sink.None?
    case Syncing(_, _, target, _) => g.sink == Some(target)
    case Synced(_, _) => g.sink.Some? && g.met
  }

  /** A committed response ends the sync exactly when its tip meets the target. */
  lemma AdvancedEnds(st: State, v: Vcc)
    requires st.sync.Syncing? && !Missing(st.cache, v) && Advanced(st, v).Next?
    ensures var sync := Advanced(st, v).state.sync;
            && !sync.Initial? && v.added != [] && sync.last == TipOf(st.cache, v)
            && (sync.Synced? <==> Meets(sync.last, st.sync.target))
            && (sync.Syncing? ==> sync.target == st.sync.target)
  {
  }

  lemma {:induction false} DrainedSynced(st: State)
    requires st.sync.Synced? && Drained(st).Next?
    ensures Drained(st).state.sync.Synced?
    decreases |st.queue|
  {
    if Waits(st) {
      DrainStops(st);
    } else {
      DrainUnfold(st);
      DrainedSynced(DrainRest(st));
    }
  }

  lemma StepOnTarget(g: Goal, i: Input, capacity: nat)
    requires OnTarget(g) && React(g.st, i, capacity).Next?
    ensures OnTarget(GoalStep(g, i, capacity))
  {
    var st := g.st;
    match i {
      case Block(h) =>
        var st1 := Cached(st, h, capacity);
        match st.sync {
          case Initial =>
          case Synced(_, _) => DrainedSynced(st1);
          case Syncing(last, id, target, parked) =>
            if parked.Some? && !Missing(st1.cache, parked.value) {
              AdvancedEnds(st1.(sync := Syncing(last, id, target, None)), parked.value);
            }
        }
      case SyncerVc(id, v) =>
        if !IsEmpty(v) && !Missing(st.cache, v) { AdvancedEnds(st, v); }
      case _ =>
    }
  }

  lemma {:induction false} RunOnTarget(g: Goal, inputs: seq<Input>, capacity: nat)
    requires OnTarget(g) && GoalRun(g, inputs, capacity).Some?
    ensures OnTarget(GoalRun(g, inputs, capacity).value)
    decreases |inputs|
  {
    if inputs != [] {
      StepOnTarget(g, inputs[0], capacity);
      RunOnTarget(GoalStep(g, inputs[0], capacity), inputs[1..], capacity);
    }
  }

  /** Over every run, reconnections included: while syncing the target is the sink
      announced last, and the processor counts as synced only when, since that
      announcement, its last accepting block was the sink or lay on more work. */
  lemma SyncedMeansMet(st: State, inputs: seq<Input>, capacity: nat)
    requires st.sync.Initial? && GoalRun(Goal(st, None, false), inputs, capacity).Some?
    ensures var g := GoalRun(Goal(st, None, false), inputs, capacity).value;
            && (g.st.sync.Syncing? ==> g.sink == Some(g.st.sync.target))
            && (g.st.sync.Synced? ==> g.sink.Some? && g.met)
  {
    RunOnTarget(Goal(st, None, false), inputs, capacity);
  }
}
