/** The processor together with its syncers: each syncer asks the node for chain
    changes, hands each response to the processor and waits for an
    acknowledgement.  Steps of the processor, of the current syncer, of syncers
    already told to stop, and of the node interleave freely, up to shutdown. */
module SyncProtocol {
  import opened Bytes
  import opened ChainStore
  import opened VirtualProcessor
  import opened RealtimeOrder

  /** `Requesting`: a request is outstanding.  `Awaiting`: the response was sent
      and the next acknowledgement is awaited.  `Gone`: dropped. */
  datatype Phase = Requesting | Awaiting | Gone

  datatype Syncer = Syncer(from: Hash, phase: Phase, acks: seq<NotificationAck>)

  /** `asked` records the block the response was requested from. */
  datatype Message = Response(id: nat, v: Vcc, asked: Hash) | Stopped(id: nat)

  /** A committed change, with the block it was requested from if it was a sync response. */
  datatype Commit = Commit(v: Vcc, asked: Option<Hash>)

  /** `start` is where the first syncer began; `delivered` is where the response
      handed to the processor last was requested from. */
  datatype Net = Net(
    syncers: map<nat, Syncer>,
    channel: seq<Message>,
    commits: seq<Commit>,
    start: Hash,
    delivered: Hash)

  datatype System = System(proc: State, net: Net)

  datatype Action =
    | Feed(i: Input)
    | Deliver
    | Respond(id: nat, v: Vcc)
    | FailRequest(id: nat)
    | TakeAck(id: nat)
    | AckClosed(id: nat)

  datatype Result =
    | Live(sys: System)
    | Ended(o: Outcome)
    | SyncerPanics(id: nat)
    | AckUndeliverable(id: nat)

  predicate Holds(p: State, id: nat)
  {
    p.sync.Syncing? && p.sync.syncerId == id
  }

  predicate Enabled(sys: System, a: Action)
  {
    var n := sys.net;
    match a
    case Feed(i) => !i.SyncerVc? && !i.SyncerStopped?
    case Deliver => n.channel != []
    case Respond(id, _) => id in n.syncers && n.syncers[id].phase == Requesting
    case FailRequest(id) => id in n.syncers && n.syncers[id].phase == Requesting
    case TakeAck(id) => id in n.syncers && n.syncers[id].phase != Gone && n.syncers[id].acks != []
    case AckClosed(id) =>
      id in n.syncers && n.syncers[id].phase != Gone && n.syncers[id].acks == [] && !Holds(sys.proc, id)
  }

  function Last(v: Vcc, otherwise: Hash): Hash
  {
    if v.added == [] then otherwise else v.added[|v.added| - 1]
  }

  /** What an effect of a handler does outside; acknowledgements go to syncer
      `cur` through a channel of capacity one. */
  function Emit(n: Net, cur: nat, e: Effect): Option<Net>
  {
    match e
    case RequestPending(_) => Some(n)
    case SpawnSyncer(id, from) =>
      Some(n.(syncers := n.syncers[id := Syncer(from, Requesting, [])],
              start := if n.syncers == map[] then from else n.start))
    case SendAck(a) =>
      if cur !in n.syncers || n.syncers[cur].phase == Gone || n.syncers[cur].acks != [] then None
      else Some(n.(syncers := n.syncers[cur := n.syncers[cur].(acks := [a])]))
    case CommitSync(v, _) => Some(n.(commits := n.commits + [Commit(v, Some(n.delivered))]))
    case CommitRealtime(v, _) => Some(n.(commits := n.commits + [Commit(v, None)]))
  }

  function Interpret(n: Net, cur: nat, es: seq<Effect>): Option<Net>
    decreases |es|
  {
    if es == [] then Some(n)
    else
      match Emit(n, cur, es[0])
      case None => None
      case Some(n') => Interpret(n', cur, es[1..])
  }

  lemma InterpretOne(n: Net, cur: nat, e: Effect)
    ensures Interpret(n, cur, [e]) == Emit(n, cur, e)
  {
    assert [e][1..] == [];
  }

  lemma InterpretTwo(n: Net, cur: nat, e: Effect, e': Effect)
    ensures Interpret(n, cur, [e, e'])
         == (match Emit(n, cur, e) case None => None case Some(n') => Emit(n', cur, e'))
  {
    assert [e, e'][1..] == [e'];
    var m := Emit(n, cur, e);
    if m.Some? { InterpretOne(m.value, cur, e'); }
  }

  function Absorb(p: State, n: Net, o: Outcome): Result
  {
    var cur := if p.sync.Syncing? then p.sync.syncerId else 0;
    if !o.Next? then Ended(o)
    else
      match Interpret(n, cur, o.effects)
      case None => AckUndeliverable(cur)
      case Some(n') => Live(System(o.state, n'))
  }

  function Retire(n: Net, id: nat): Net
    requires id in n.syncers
  {
    n.(syncers := n.syncers[id := n.syncers[id].(phase := Gone, acks := [])], channel := n.channel + [Stopped(id)])
  }

  function Perform(sys: System, a: Action, capacity: nat): Result
    requires Enabled(sys, a)
  {
    var p, n := sys.proc, sys.net;
    match a
    case Feed(i) => Absorb(p, n, React(p, i, capacity))
    case Deliver =>
      var n' := n.(channel := n.channel[1..]);
      (match n.channel[0]
       case Response(id, v, asked) => Absorb(p, n'.(delivered := asked), React(p, SyncerVc(id, v), capacity))
       case Stopped(id) => Absorb(p, n', React(p, SyncerStopped(id), capacity)))
    case Respond(id, v) =>
      var s := n.syncers[id];
      Live(sys.(net := n.(syncers := n.syncers[id := s.(from := Last(v, s.from), phase := Awaiting)],
                          channel := n.channel + [Response(id, v, s.from)])))
    case FailRequest(id) => Live(sys.(net := Retire(n, id)))
    case TakeAck(id) =>
      var s := n.syncers[id];
      if s.acks[0] == Stop then Live(sys.(net := Retire(n, id)))
      else if s.phase == Requesting then SyncerPanics(id)
      else Live(sys.(net := n.(syncers := n.syncers[id := s.(phase := Requesting, acks := s.acks[1..])])))
    case AckClosed(id) => Live(sys.(net := Retire(n, id)))
  }

  // ----- the token -----

  /** The messages of one syncer that are still in the channel. */
  function Of(channel: seq<Message>, id: nat): seq<Message>
  {
    if channel == [] then []
    else (if channel[0].id == id then [channel[0]] else []) + Of(channel[1..], id)
  }

  lemma {:induction false} OfSnoc(channel: seq<Message>, m: Message, id: nat)
    ensures Of(channel + [m], id) == Of(channel, id) + (if m.id == id then [m] else [])
  {
    if channel != [] {
      assert (channel + [m])[1..] == channel[1..] + [m];
      OfSnoc(channel[1..], m, id);
    }
  }

  lemma {:induction false} OfNone(channel: seq<Message>, id: nat)
    requires forall m :: m in channel ==> m.id != id
    ensures Of(channel, id) == []
  {
    if channel != [] { OfNone(channel[1..], id); }
  }

  lemma {:induction false} OfEmpty(channel: seq<Message>, id: nat, m: Message)
    requires Of(channel, id) == [] && m in channel
    ensures m.id != id
  {
    if m != channel[0] { OfEmpty(channel[1..], id, m); }
  }

  /** Outstanding request, response or failure notice in the channel, parked
      response, `Continue` in the acknowledgement channel. */
  function Tokens(sys: System): nat
    requires sys.proc.sync.Syncing? && sys.proc.sync.syncerId in sys.net.syncers
  {
    var id := sys.proc.sync.syncerId;
    var s := sys.net.syncers[id];
    (if s.phase == Requesting then 1 else 0)
    + |Of(sys.net.channel, id)|
    + (if sys.proc.sync.parked.Some? then 1 else 0)
    + (if Continue in s.acks then 1 else 0)
  }

  predicate Proper(v: Vcc)
  {
    IsEmpty(v) || v.added != []
  }

  /** Where the token is, and that the next request starts at the tip. */
  predicate TokenAt(s: Syncer, parked: Option<Vcc>, mine: seq<Message>, delivered: Hash, tip: Hash)
  {
    match s.phase
    case Requesting => s.acks == [] && parked.None? && mine == [] && s.from == tip
    case Gone => parked.None? && |mine| == 1 && mine[0].Stopped? && s.acks == []
    case Awaiting =>
      || (s.acks == [Continue] && parked.None? && mine == [] && s.from == tip)
      || (s.acks == [] && parked.Some? && mine == [] && Proper(parked.value) && !IsEmpty(parked.value)
          && delivered == tip && s.from == Last(parked.value, tip))
      || (s.acks == [] && parked.None? && |mine| == 1 && mine[0].Response? && Proper(mine[0].v)
          && mine[0].asked == tip && s.from == Last(mine[0].v, tip))
  }

  predicate Retired(s: Syncer)
  {
    s.phase == Gone || (s.phase == Awaiting && s.acks == [Stop])
  }

  function TipAfter(commits: seq<Commit>, start: Hash): Hash
  {
    if commits == [] then start else Last(commits[|commits| - 1].v, start)
  }

  /** Every committed sync response was requested from the tip of the commit before it. */
  predicate Contiguous(commits: seq<Commit>, start: Hash)
  {
    forall i :: 0 <= i < |commits| && commits[i].asked.Some? ==>
      commits[i].asked.value == TipAfter(commits[..i], start)
  }

  ghost predicate Orderly(p: State, n: Net)
  {
    && Contiguous(n.commits, n.start)
    && !p.shuttingDown
    && (forall v :: v in p.queue ==> Proper(v))
    && (forall m :: m in n.channel ==> m.id in n.syncers)
  }

  /** While syncing: earlier syncers are on their way out, only the current one
      sends responses, and the processor's last block is the tip. */
  ghost predicate Following(p: State, n: Net)
    requires p.sync.Syncing?
  {
    var id := p.sync.syncerId;
    && Orderly(p, n)
    && id in n.syncers && p.sync.last.hash == TipAfter(n.commits, n.start)
    && (forall j :: j in n.syncers && j != id ==> j < id && Retired(n.syncers[j]))
    && (forall m :: m in n.channel && m.Response? ==> m.id == id)
  }

  ghost predicate Inv(sys: System)
  {
    var p, n := sys.proc, sys.net;
    && Orderly(p, n)
    && match p.sync
       case Initial => n.syncers == map[] && n.channel == [] && n.commits == []
       case Synced(id, last) =>
         && id in n.syncers && last.hash == TipAfter(n.commits, n.start)
         && (forall j :: j in n.syncers ==> j <= id && Retired(n.syncers[j]))
         && (forall m :: m in n.channel ==> m.Stopped?)
       case Syncing(last, id, _, parked) =>
         && Following(p, n)
         && TokenAt(n.syncers[id], parked, Of(n.channel, id), n.delivered, TipAfter(n.commits, n.start))
  }

  /** What the node promises: a change that is not empty adds a block, and no
      notification comes before the first connection. */
  predicate Promised(sys: System, a: Action)
  {
    match a
    case Respond(_, v) => Proper(v)
    case Feed(Realtime(v)) => Proper(v) && !sys.proc.sync.Initial?
    case _ => true
  }

  lemma ContiguousSnoc(commits: seq<Commit>, start: Hash, c: Commit)
    requires Contiguous(commits, start)
    requires c.asked.Some? ==> c.asked.value == TipAfter(commits, start)
    ensures Contiguous(commits + [c], start)
  {
    var cs := commits + [c];
    forall i | 0 <= i < |cs| && cs[i].asked.Some?
      ensures cs[i].asked.value == TipAfter(cs[..i], start)
    {
      assert i < |commits| ==> cs[..i] == commits[..i];
      assert i == |commits| ==> cs[..i] == commits;
    }
  }

  // ----- steps of the syncers -----

  /** A response takes the token from the request into the channel. */
  lemma RespondKeeps(sys: System, id: nat, v: Vcc, capacity: nat)
    requires Inv(sys) && Enabled(sys, Respond(id, v)) && Proper(v)
    ensures Inv(Perform(sys, Respond(id, v), capacity).sys)
  {
    var n := sys.net;
    assert Holds(sys.proc, id);
    OfSnoc(n.channel, Response(id, v, n.syncers[id].from), id);
  }

  /** A syncer that ends leaves its notice; the current one ends only by failing. */
  lemma RetireKeeps(sys: System, id: nat)
    requires Inv(sys) && id in sys.net.syncers
    requires Holds(sys.proc, id) ==> sys.net.syncers[id].phase == Requesting
    ensures Inv(sys.(net := Retire(sys.net, id)))
  {
    var n := sys.net;
    if sys.proc.sync.Syncing? {
      OfSnoc(n.channel, Stopped(id), sys.proc.sync.syncerId);
      assert id != sys.proc.sync.syncerId ==>
        Of(n.channel + [Stopped(id)], sys.proc.sync.syncerId) == Of(n.channel, sys.proc.sync.syncerId);
    }
  }

  lemma TakeAckKeeps(sys: System, id: nat, capacity: nat)
    requires Inv(sys) && Enabled(sys, TakeAck(id))
    ensures Perform(sys, TakeAck(id), capacity).Live? && Inv(Perform(sys, TakeAck(id), capacity).sys)
  {
    if sys.net.syncers[id].acks[0] == Stop { RetireKeeps(sys, id); }
  }

  lemma SyncerStepKeeps(sys: System, a: Action, capacity: nat)
    requires Inv(sys) && Enabled(sys, a) && Promised(sys, a)
    requires a.Respond? || a.FailRequest? || a.TakeAck? || a.AckClosed?
    ensures Perform(sys, a, capacity).Live? && Inv(Perform(sys, a, capacity).sys)
  {
    match a {
      case Respond(id, v) => RespondKeeps(sys, id, v, capacity);
      case TakeAck(id) => TakeAckKeeps(sys, id, capacity);
      case FailRequest(id) => RetireKeeps(sys, id);
      case AckClosed(id) => RetireKeeps(sys, id);
    }
  }

  // ----- steps of the processor -----

  /** Nothing goes wrong that the protocol is meant to exclude: the processor
      neither panics on a syncer message nor fails to deliver an acknowledgement. */
  ghost predicate Sound(r: Result)
  {
    match r
    case Live(sys) => Inv(sys)
    case Ended(o) => o == Panic(StoreLookup)
    case _ => false
  }

  /** The processor holds the token in the form of the response `v`. */
  ghost predicate InHand(p: State, n: Net, v: Vcc)
  {
    && p.sync.Syncing? && p.sync.parked.None? && Following(p, n)
    && var s, tip := n.syncers[p.sync.syncerId], TipAfter(n.commits, n.start);
       && s.phase == Awaiting && s.acks == [] && Of(n.channel, p.sync.syncerId) == []
       && Proper(v) && n.delivered == tip && s.from == Last(v, tip)
  }

  function HandedOn(n: Net, id: nat, v: Vcc, ack: NotificationAck): Net
    requires id in n.syncers
  {
    n.(syncers := n.syncers[id := n.syncers[id].(acks := [ack])],
       commits := n.commits + [Commit(v, Some(n.delivered))])
  }

  /** Committing a response moves the tip to its last block and hands the token
      on: `Continue` to the syncer, or `Stop` and no sync any more. */
  lemma HandOn(p: State, n: Net, v: Vcc, p': State, tip: Tip)
    requires InHand(p, n, v) && v.added != [] && tip.hash == Last(v, n.start)
    requires p'.queue == p.queue && p'.shuttingDown == p.shuttingDown
    requires || p'.sync == Synced(p.sync.syncerId, tip)
             || p'.sync == Syncing(tip, p.sync.syncerId, p.sync.target, None)
    ensures Inv(System(p', HandedOn(n, p.sync.syncerId, v, if p'.sync.Syncing? then Continue else Stop)))
  {
    ContiguousSnoc(n.commits, n.start, Commit(v, Some(n.delivered)));
    forall m | m in n.channel ensures m.Stopped? {
      OfEmpty(n.channel, p.sync.syncerId, m);
    }
  }

  lemma AdvancedKeeps(p: State, n: Net, v: Vcc)
    requires InHand(p, n, v) && !IsEmpty(v) && !Missing(p.cache, v)
    ensures Sound(Absorb(p, n, Advanced(p, v)))
  {
    var o := Advanced(p, v);
    if o.Next? {
      var es, id := o.effects, p.sync.syncerId;
      HandOn(p, n, v, o.state, TipOf(p.cache, v));
      InterpretTwo(n, id, es[0], es[1]);
      assert es == [es[0], es[1]];
    }
  }

  lemma ResponseKeeps(sys: System, capacity: nat)
    requires Inv(sys) && sys.net.channel != [] && sys.net.channel[0].Response?
    ensures Sound(Perform(sys, Deliver, capacity))
  {
    var p, n := sys.proc, sys.net;
    var Response(id, v, asked) := n.channel[0];
    assert n.channel[0] in n.channel;
    assert id == p.sync.syncerId;
    var n' := n.(channel := n.channel[1..], delivered := asked);
    assert Of(n.channel, id) == [n.channel[0]] + Of(n.channel[1..], id);
    assert forall m :: m in n.channel[1..] ==> m in n.channel;
    assert InHand(p, n', v);
    if IsEmpty(v) {
      InterpretOne(n', id, SendAck(Continue));
    } else if !Missing(p.cache, v) {
      AdvancedKeeps(p, n', v);
    }
  }

  lemma StoppedKeeps(sys: System, capacity: nat)
    requires Inv(sys) && sys.net.channel != [] && sys.net.channel[0].Stopped?
    ensures var r := Perform(sys, Deliver, capacity);
            if Holds(sys.proc, sys.net.channel[0].id) then r == Ended(Bail) else Sound(r)
  {
    var n := sys.net;
    assert n.channel[0] in n.channel;
    assert forall m :: m in n.channel[1..] ==> m in n.channel;
  }

  lemma ConnectedKeeps(sys: System, sink: Tip, pp: Hash, capacity: nat)
    requires Inv(sys)
    ensures Sound(Perform(sys, Feed(Connected(sink, pp)), capacity))
  {
    var p, n := sys.proc, sys.net;
    var o := OnConnected(p, sink, pp);
    if o.effects != [] {
      var id := o.state.sync.syncerId;
      OfNone(n.channel, id);
      if p.sync.Initial? {
        InterpretTwo(n, 0, o.effects[0], o.effects[1]);
        assert o.effects == [o.effects[0], o.effects[1]];
      } else {
        InterpretOne(n, 0, o.effects[0]);
        assert o.effects == [o.effects[0]];
      }
    }
  }

  lemma RealtimeKeeps(sys: System, v: Vcc, capacity: nat)
    requires Inv(sys) && Promised(sys, Feed(Realtime(v)))
    ensures Sound(Perform(sys, Feed(Realtime(v)), capacity))
  {
    var p, n := sys.proc, sys.net;
    var o := OnRealtime(p, v);
    if o.Next? && o.effects != [] {
      RealtimeCommitKeeps(p, n, v, o.state);
      InterpretOne(n, 0, o.effects[0]);
      assert o.effects == [o.effects[0]];
    }
  }

  lemma RealtimeCommitKeeps(p: State, n: Net, v: Vcc, p': State)
    requires Inv(System(p, n)) && p.sync.Synced? && v.added != []
    requires p'.sync.Synced? && p'.sync.lastSyncerId == p.sync.lastSyncerId && p'.sync.last.hash == Last(v, n.start)
    requires !p'.shuttingDown && forall x :: x in p'.queue ==> Proper(x)
    ensures Inv(System(p', n.(commits := n.commits + [Commit(v, None)])))
  {
    ContiguousSnoc(n.commits, n.start, Commit(v, None));
  }

  /** Draining commits real-time changes one after the other; the tip follows. */
  lemma {:induction false} DrainedKeeps(p: State, n: Net)
    requires p.sync.Synced? && Inv(System(p, n)) && Drained(p).Next?
    ensures Interpret(n, 0, Drained(p).effects).Some?
    ensures Inv(System(Drained(p).state, Interpret(n, 0, Drained(p).effects).value))
    decreases |p.queue|
  {
    if Waits(p) {
      DrainStops(p);
    } else {
      DrainUnfold(p);
      var v, p1 := p.queue[0], DrainRest(p);
      assert forall x :: x in p1.queue ==> x in p.queue;
      if IsEmpty(v) {
        assert [] + Drained(p1).effects == Drained(p1).effects;
        DrainedKeeps(p1, n);
      } else {
        RealtimeCommitKeeps(p, n, v, p1);
        DrainedKeeps(p1, n.(commits := n.commits + [Commit(v, None)]));
        assert ([CommitRealtime(v, Asked(p, v))] + Drained(p1).effects)[1..] == Drained(p1).effects;
      }
    }
  }

  /** Draining proper changes ends early only on a store lookup. */
  lemma {:induction false} DrainedPanics(p: State)
    requires p.sync.Synced? && (forall v :: v in p.queue ==> Proper(v)) && !Drained(p).Next?
    ensures Drained(p) == Panic(StoreLookup)
    decreases |p.queue|
  {
    var v, rest := p.queue[0], p.(queue := p.queue[1..]);
    assert v in p.queue && forall x :: x in rest.queue ==> x in p.queue;
    if IsEmpty(v) {
      DrainedPanics(rest);
    } else if CanApply(p.store, p.cache, v) {
      DrainedPanics(Committed(rest, v).(sync := Synced(p.sync.lastSyncerId, TipOf(p.cache, v))));
    }
  }

  lemma BlockKeeps(sys: System, h: CompactHeader, capacity: nat)
    requires Inv(sys)
    ensures Sound(Perform(sys, Feed(Block(h)), capacity))
  {
    var p, n := sys.proc, sys.net;
    match p.sync {
      case Initial =>
      case Synced(_, _) =>
        var p1 := Cached(p, h, capacity);
        if Drained(p1).Next? { DrainedKeeps(p1, n); } else { DrainedPanics(p1); }
      case Syncing(last, id, target, parked) =>
        var p1 := Cached(p, h, capacity);
        if parked.Some? && !Missing(p1.cache, parked.value) {
          AdvancedKeeps(p1.(sync := Syncing(last, id, target, None)), n, parked.value);
        }
    }
  }

  lemma FeedKeeps(sys: System, i: Input, capacity: nat)
    requires Inv(sys) && Enabled(sys, Feed(i)) && Promised(sys, Feed(i))
    ensures Sound(Perform(sys, Feed(i), capacity))
  {
    match i {
      case Connected(sink, pp) => ConnectedKeeps(sys, sink, pp, capacity);
      case Block(h) => BlockKeeps(sys, h, capacity);
      case Realtime(v) => RealtimeKeeps(sys, v, capacity);
      case Disconnected =>
      case StoreEvent(e) =>
    }
  }

  // ----- where the first sync starts -----

  lemma {:induction false} InterpretStart(n: Net, cur: nat, es: seq<Effect>)
    requires n.syncers != map[] && Interpret(n, cur, es).Some?
    ensures Interpret(n, cur, es).value.start == n.start && Interpret(n, cur, es).value.syncers != map[]
    decreases |es|
  {
    if es != [] {
      var n' := Emit(n, cur, es[0]).value;
      assert n'.syncers != map[] by { var k :| k in n.syncers; assert k in n'.syncers; }
      InterpretStart(n', cur, es[1..]);
    }
  }

  /** The first connection starts the first syncer at the stored cursor, or at the
      pruning point when there is none; no later step moves that start. */
  lemma StartOfSync(sys: System, a: Action, capacity: nat)
    requires Inv(sys) && Enabled(sys, a) && Perform(sys, a, capacity).Live?
    ensures var p, n := sys.proc, Perform(sys, a, capacity).sys.net;
            && (!p.sync.Initial? ==> n.start == sys.net.start && n.syncers != map[])
            && (p.sync.Initial? && a.Feed? && a.i.Connected? ==>
                  n.start == (if p.cursor.None? then a.i.pp else p.cursor.value.hash))
  {
    var p, n := sys.proc, sys.net;
    var cur := if p.sync.Syncing? then p.sync.syncerId else 0;
    assert !p.sync.Initial? ==> n.syncers.Keys != {};
    match a {
      case Feed(i) =>
        var o := React(p, i, capacity);
        if !p.sync.Initial? {
          InterpretStart(n, cur, o.effects);
        } else if i.Connected? {
          InterpretTwo(n, 0, o.effects[0], o.effects[1]);
          assert o.effects == [o.effects[0], o.effects[1]];
        }
      case Deliver =>
        var n' := n.(channel := n.channel[1..]);
        match n.channel[0] {
          case Response(id, v, asked) => InterpretStart(n'.(delivered := asked), cur, React(p, SyncerVc(id, v), capacity).effects);
          case Stopped(id) => InterpretStart(n', cur, React(p, SyncerStopped(id), capacity).effects);
        }
      case _ => assert a.id in Perform(sys, a, capacity).sys.net.syncers;
    }
  }

  // ----- whole runs -----

  /** The state of a run, or how it ended. */
  ghost predicate Run(sys: System, actions: seq<Action>, capacity: nat, r: Result)
    decreases |actions|
  {
    if actions == [] then r == Live(sys)
    else
      && Enabled(sys, actions[0]) && Promised(sys, actions[0])
      && var next := Perform(sys, actions[0], capacity);
         if next.Live? then Run(next.sys, actions[1..], capacity, r)
         else r == next && |actions| == 1
  }

  predicate Fresh(sys: System)
  {
    && sys.proc.sync == Initial && sys.proc.queue == [] && !sys.proc.shuttingDown
    && sys.net.syncers == map[] && sys.net.channel == [] && sys.net.commits == []
  }

  /** A run ends by itself only because the current syncer reported that it
      failed, or because the store lacks something a chain change needs. */
  predicate AllowedEnd(r: Result)
  {
    r == Ended(Bail) || r == Ended(Panic(StoreLookup))
  }

  lemma OneStep(sys: System, actions: seq<Action>, capacity: nat, r: Result)
    requires Inv(sys) && Run(sys, actions, capacity, r) && actions != []
    ensures var next := Perform(sys, actions[0], capacity);
            if next.Live? then Inv(next.sys) && Run(next.sys, actions[1..], capacity, r) else r == next && AllowedEnd(r)
  {
    var a := actions[0];
    match a {
      case Feed(i) => FeedKeeps(sys, i, capacity);
      case Deliver =>
        if sys.net.channel[0].Response? { ResponseKeeps(sys, capacity); } else { StoppedKeeps(sys, capacity); }
      case _ => SyncerStepKeeps(sys, a, capacity);
    }
  }

  lemma {:induction false} RunKeeps(sys: System, actions: seq<Action>, capacity: nat, r: Result)
    requires Inv(sys) && Run(sys, actions, capacity, r)
    ensures if r.Live? then Inv(r.sys) else AllowedEnd(r)
    decreases |actions|
  {
    if actions != [] {
      var a := actions[0];
      OneStep(sys, actions, capacity, r);
      var next := Perform(sys, a, capacity);
      if next.Live? { RunKeeps(next.sys, actions[1..], capacity, r); }
    }
  }

  /** Acknowledgement protocol.  In every interleaving before shutdown a live sync
      has exactly one token; hence the assertions and `unreachable!` arms for
      syncer messages and acknowledgements never fire, and every acknowledgement
      finds its syncer waiting for it with room in the channel. */
  lemma AckProtocol(sys: System, actions: seq<Action>, capacity: nat, r: Result)
    requires Fresh(sys) && Run(sys, actions, capacity, r)
    ensures r.Live? || AllowedEnd(r)
    ensures r.Live? && r.sys.proc.sync.Syncing? ==>
              r.sys.proc.sync.syncerId in r.sys.net.syncers && Tokens(r.sys) == 1
  {
    RunKeeps(sys, actions, capacity, r);
  }

  /** The pruning point named by the first connection. */
  function FirstPruningPoint(actions: seq<Action>): Hash
    requires exists a :: a in actions && a.Feed? && a.i.Connected?
    decreases |actions|
  {
    if actions[0].Feed? && actions[0].i.Connected? then actions[0].i.pp else FirstPruningPoint(actions[1..])
  }

  /** Before the first connection nothing moves the stored cursor. */
  lemma UntilConnected(sys: System, a: Action, capacity: nat)
    requires Inv(sys) && sys.proc.sync.Initial? && Enabled(sys, a) && Promised(sys, a)
    requires Perform(sys, a, capacity).Live? && !(a.Feed? && a.i.Connected?)
    ensures var p := Perform(sys, a, capacity).sys.proc;
            p.sync.Initial? && p.cursor == sys.proc.cursor
  {
  }

  lemma {:induction false} RunStart(sys: System, actions: seq<Action>, capacity: nat, r: Result)
    requires Inv(sys) && Run(sys, actions, capacity, r) && r.Live?
    ensures !sys.proc.sync.Initial? ==> r.sys.net.start == sys.net.start && !r.sys.proc.sync.Initial?
    ensures sys.proc.sync.Initial? && !r.sys.proc.sync.Initial? ==>
              && (exists a :: a in actions && a.Feed? && a.i.Connected?)
              && r.sys.net.start == (if sys.proc.cursor.Some? then sys.proc.cursor.value.hash else FirstPruningPoint(actions))
    decreases |actions|
  {
    if actions != [] {
      var a := actions[0];
      var next := Perform(sys, a, capacity).sys;
      OneStep(sys, actions, capacity, r);
      StartOfSync(sys, a, capacity);
      RunStart(next, actions[1..], capacity, r);
      if sys.proc.sync.Initial? {
        if a.Feed? && a.i.Connected? {
          assert a in actions;
        } else {
          UntilConnected(sys, a, capacity);
          assert forall x :: x in actions[1..] ==> x in actions;
        }
      }
    }
  }

  /** Sync contiguity.  Over a whole run, re-syncs with new syncers included, every
      committed sync response was requested from the last block added by the commit
      just before it, the first one from the cursor stored at the start or, without
      one, from the pruning point the first connection names; and the processor's
      last accepting block is always that tip. */
  lemma SyncContiguity(sys: System, actions: seq<Action>, capacity: nat, r: Result)
    requires Fresh(sys) && Run(sys, actions, capacity, r) && r.Live?
    ensures Contiguous(r.sys.net.commits, r.sys.net.start)
    ensures !r.sys.proc.sync.Initial? ==>
              && (exists a :: a in actions && a.Feed? && a.i.Connected?)
              && r.sys.net.start == (if sys.proc.cursor.Some? then sys.proc.cursor.value.hash else FirstPruningPoint(actions))
              && r.sys.proc.sync.last.hash == TipAfter(r.sys.net.commits, r.sys.net.start)
  {
    RunKeeps(sys, actions, capacity, r);
    RunStart(sys, actions, capacity, r);
  }
}
