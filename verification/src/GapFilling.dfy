/** The block worker and its gap fillers: small actors that fetch the blocks
    between two known ones and report progress over a channel. */
module GapFilling {
  import opened Bytes

  datatype Gap = Gap(from: Hash, to: Hash)

  datatype Progress =
    | Update(target: Hash, blocks: seq<Hash>)
    | Finished(target: Hash, blocks: seq<Hash>)
    | Interrupted(target: Hash)
    | Failed(target: Hash)

  predicate Terminal(p: Progress)
  {
    !p.Update?
  }

  function BlocksOf(p: Progress): seq<Hash>
  {
    if p.Update? || p.Finished? then p.blocks else []
  }

  // ----- the filler -----

  /** What one turn of a filler's loop meets: the interrupt (or its sender gone),
      a refused request, a node error, a lost response, or blocks. */
  datatype Turn = Interrupt | ShuttingDown | NodeError | Lost | Blocks(blocks: seq<Hash>)

  /** A message a filler for `target` can send while it runs. */
  predicate Sendable(p: Progress, target: Hash)
  {
    && p.target == target
    && (p.Update? ==> p.blocks != [] && target !in p.blocks)
    && (p.Finished? ==> target in p.blocks)
  }

  /** The messages a filler sends, standing at `at`, over the turns it gets. */
  function Sent(at: Hash, target: Hash, turns: seq<Turn>): seq<Progress>
    decreases |turns|
  {
    if turns == [] then []
    else
      match turns[0]
      case Interrupt => [Interrupted(target)]
      case NodeError => [Failed(target)]
      case Lost => []
      case ShuttingDown => Sent(at, target, turns[1..])
      case Blocks(blocks) =>
        if target in blocks then [Finished(target, blocks)]
        else if blocks == [] then []
        else [Update(target, blocks)] + Sent(blocks[|blocks| - 1], target, turns[1..])
  }

  /** The blocks it asks from. */
  function Asked(at: Hash, target: Hash, turns: seq<Turn>): seq<Hash>
    decreases |turns|
  {
    if turns == [] || turns[0].Interrupt? then []
    else
      [at] +
      match turns[0]
      case ShuttingDown => Asked(at, target, turns[1..])
      case Blocks(blocks) =>
        if target in blocks || blocks == [] then [] else Asked(blocks[|blocks| - 1], target, turns[1..])
      case _ => []
  }

  /** The filler's loop. */
  method Sync(from: Hash, target: Hash, turns: seq<Turn>) returns (sent: seq<Progress>, asked: seq<Hash>)
    ensures sent == Sent(from, target, turns) && asked == Asked(from, target, turns)
  {
    var at := from;
    sent, asked := [], [];
    var n := 0;
    while n < |turns|
      invariant 0 <= n <= |turns|
      invariant sent + Sent(at, target, turns[n..]) == Sent(from, target, turns)
      invariant asked + Asked(at, target, turns[n..]) == Asked(from, target, turns)
    {
      var turn := turns[n];
      assert turns[n..][0] == turn && turns[n..][1..] == turns[n + 1..];
      ghost var sent0, asked0, at0 := sent, asked, at;
      if turn.Interrupt? {
        assert asked + [] == asked;
        return sent + [Interrupted(target)], asked;
      }
      asked := asked + [at];
      match turn {
        case NodeError =>
          return sent + [Failed(target)], asked;
        case Lost =>
          assert sent + [] == sent;
          return;
        case ShuttingDown =>
          Regroup(asked0, at0, Asked(at, target, turns[n + 1..]));
        case Blocks(blocks) =>
          if target in blocks {
            return sent + [Finished(target, blocks)], asked;
          }
          if blocks == [] {
            assert sent + [] == sent;
            return;
          }
          at := blocks[|blocks| - 1];
          sent := sent + [Update(target, blocks)];
          Regroup(sent0, Update(target, blocks), Sent(at, target, turns[n + 1..]));
          Regroup(asked0, at0, Asked(at, target, turns[n + 1..]));
      }
      n := n + 1;
    }
  }

  lemma Regroup<T>(a: seq<T>, x: T, b: seq<T>)
    ensures (a + [x]) + b == a + ([x] + b)
  {
  }

  /** A filler reports every batch in order, ends with at most one terminal
      message, calls itself finished only with a batch that contains its target,
      and asks from its gap's start or from a block it has passed on. */
  lemma {:induction false} FillerReports(at: Hash, target: Hash, turns: seq<Turn>)
    ensures var sent := Sent(at, target, turns);
            && (forall i :: 0 <= i < |sent| ==> Sendable(sent[i], target))
            && (forall i :: 0 <= i < |sent| - 1 ==> sent[i].Update?)
            && Delivered(sent) <= Fetched(turns)
            && (forall a :: a in Asked(at, target, turns) ==> a == at || a in Delivered(sent))
    decreases |turns|
  {
    if turns != [] {
      match turns[0] {
        case ShuttingDown => FillerReports(at, target, turns[1..]);
        case Blocks(blocks) =>
          if target !in blocks && blocks != [] {
            var next := blocks[|blocks| - 1];
            FillerReports(next, target, turns[1..]);
            var sent, rest := Sent(at, target, turns), Sent(next, target, turns[1..]);
            assert sent[1..] == rest;
            assert Delivered(sent) == blocks + Delivered(rest);
          } else if target in blocks {
            assert [Finished(target, blocks)][1..] == [];
            assert blocks + Delivered([]) == blocks;
          }
        case Interrupt => assert [Interrupted(target)][1..] == [];
        case NodeError => assert [Failed(target)][1..] == [];
        case Lost =>
      }
    }
  }

  function Batches(turns: seq<Turn>): seq<seq<Hash>>
  {
    if turns == [] then []
    else (if turns[0].Blocks? then [turns[0].blocks] else []) + Batches(turns[1..])
  }

  /** The loop goes on after this turn. */
  predicate GoesOn(turn: Turn, target: Hash)
  {
    turn.ShuttingDown? || (turn.Blocks? && turn.blocks != [] && target !in turn.blocks)
  }

  /** Turn `n` is the first at which the loop ends, if any. */
  predicate EndsAt(turns: seq<Turn>, target: Hash, n: nat)
  {
    n <= |turns| && (forall j :: 0 <= j < n ==> GoesOn(turns[j], target)) && (n < |turns| ==> !GoesOn(turns[n], target))
  }

  lemma EndsLater(turns: seq<Turn>, target: Hash, n: nat)
    requires EndsAt(turns, target, n) && n > 0
    ensures EndsAt(turns[1..], target, n - 1) && GoesOn(turns[0], target)
    ensures turns[..n][0] == turns[0] && turns[..n][1..] == turns[1..][..n - 1]
  {
    var rest := turns[1..];
    assert forall j :: 0 <= j < |rest| ==> rest[j] == turns[j + 1];
  }

  /** What a filler sends, exactly.  It passes on the batches fetched before its last
      turn, each as an update, and then says how it ended: interrupted, failed on a
      node error, or finished with the batch that holds the target.  It says nothing
      when the response was lost, the batch was empty, or it is still running. */
  lemma {:induction false} FillerSends(at: Hash, target: Hash, turns: seq<Turn>, n: nat)
    requires EndsAt(turns, target, n)
    ensures var sent, batches := Sent(at, target, turns), Batches(turns[..n]);
            && |sent| >= |batches| && (forall i :: 0 <= i < |batches| ==> sent[i] == Update(target, batches[i]))
            && (n < |turns| && turns[n].Interrupt? ==> sent[|batches|..] == [Interrupted(target)])
            && (n < |turns| && turns[n].NodeError? ==> sent[|batches|..] == [Failed(target)])
            && (n < |turns| && turns[n].Blocks? && target in turns[n].blocks ==>
                  sent[|batches|..] == [Finished(target, turns[n].blocks)])
            && (n == |turns| || turns[n].Lost? || turns[n] == Blocks([]) ==> |sent| == |batches|)
    decreases |turns|
  {
    if n > 0 {
      var t, rest := turns[0], turns[1..];
      EndsLater(turns, target, n);
      var later := Batches(rest[..n - 1]);
      if t.Blocks? {
        var next := t.blocks[|t.blocks| - 1];
        FillerSends(next, target, rest, n - 1);
        SendsLater(Update(target, t.blocks), Sent(next, target, rest), |later|);
        assert Batches(turns[..n]) == [t.blocks] + later;
      } else {
        FillerSends(at, target, rest, n - 1);
        assert Batches(turns[..n]) == [] + later == later;
      }
    } else if n < |turns| {
      assert turns[..0] == [];
    }
  }

  lemma SendsLater(p: Progress, after: seq<Progress>, m: nat)
    requires m <= |after|
    ensures ([p] + after)[m + 1..] == after[m..]
  {
  }

  lemma FetchedFirst(turns: seq<Turn>, j: nat)
    requires 0 < j <= |turns|
    ensures Fetched(turns[..j]) == (if turns[0].Blocks? then turns[0].blocks else []) + Fetched(turns[1..][..j - 1])
  {
    assert turns[..j][0] == turns[0] && turns[..j][1..] == turns[1..][..j - 1];
  }

  function Next(at: Hash, turn: Turn): Hash
  {
    if turn.Blocks? && turn.blocks != [] then turn.blocks[|turn.blocks| - 1] else at
  }

  lemma AskedFirst(at: Hash, target: Hash, turns: seq<Turn>)
    requires turns != []
    ensures GoesOn(turns[0], target) ==> Asked(at, target, turns) == [at] + Asked(Next(at, turns[0]), target, turns[1..])
    ensures !GoesOn(turns[0], target) ==> Asked(at, target, turns) == if turns[0].Interrupt? then [] else [at]
  {
  }

  lemma {:induction false} AsksOncePerTurn(at: Hash, target: Hash, turns: seq<Turn>, n: nat)
    requires EndsAt(turns, target, n)
    ensures |Asked(at, target, turns)| == if n < |turns| && !turns[n].Interrupt? then n + 1 else n
    decreases |turns|
  {
    if turns != [] {
      AskedFirst(at, target, turns);
      if n > 0 {
        EndsLater(turns, target, n);
        AsksOncePerTurn(Next(at, turns[0]), target, turns[1..], n - 1);
      }
    }
  }

  /** The last of `blocks`, or `at` when there are none. */
  function LastOr(at: Hash, blocks: seq<Hash>): Hash
  {
    if blocks == [] then at else blocks[|blocks| - 1]
  }

  lemma LastOfBoth(at: Hash, turn: Turn, later: seq<Hash>)
    ensures LastOr(at, (if turn.Blocks? then turn.blocks else []) + later) == LastOr(Next(at, turn), later)
  {
  }

  lemma {:induction false} AsksFromLast(at: Hash, target: Hash, turns: seq<Turn>, j: nat)
    requires j < |Asked(at, target, turns)|
    ensures j <= |turns| && Asked(at, target, turns)[j] == LastOr(at, Fetched(turns[..j]))
    decreases |turns|
  {
    if turns != [] {
      AskedFirst(at, target, turns);
      if j > 0 {
        AsksFromLast(Next(at, turns[0]), target, turns[1..], j - 1);
        FetchedFirst(turns, j);
        LastOfBoth(at, turns[0], Fetched(turns[1..][..j - 1]));
      } else {
        assert turns[..0] == [];
      }
    }
  }

  /** What a filler asks for, exactly: once a turn, except at an interrupt, and each
      time from the last block fetched so far. */
  lemma FillerAsks(at: Hash, target: Hash, turns: seq<Turn>, n: nat, j: nat)
    requires EndsAt(turns, target, n)
    ensures |Asked(at, target, turns)| == if n < |turns| && !turns[n].Interrupt? then n + 1 else n
    ensures j < |Asked(at, target, turns)| ==>
              var before := Fetched(turns[..j]);
              Asked(at, target, turns)[j] == if before == [] then at else before[|before| - 1]
  {
    AsksOncePerTurn(at, target, turns, n);
    if j < |Asked(at, target, turns)| { AsksFromLast(at, target, turns, j); }
  }

  function Delivered(ps: seq<Progress>): seq<Hash>
  {
    if ps == [] then [] else BlocksOf(ps[0]) + Delivered(ps[1..])
  }

  function Fetched(turns: seq<Turn>): seq<Hash>
  {
    if turns == [] then []
    else (if turns[0].Blocks? then turns[0].blocks else []) + Fetched(turns[1..])
  }

  // ----- the worker -----

  /** `handles`: targets of fillers that can still be interrupted.  `gaps` maps a
      gap's target to how far it is filled; `headers` are the stored block headers. */
  datatype Worker = Worker(
    connected: bool,
    handles: set<Hash>,
    inProgress: int,
    gaps: map<Hash, Hash>,
    headers: set<Hash>,
    last: Option<Hash>,
    cursor: Option<Hash>,
    shutdown: bool)

  /** The gap between what was indexed before and the current sink, if any. */
  function NewGap(w: Worker, sink: Hash, pp: Hash): Option<Gap>
  {
    match w.cursor
    case None => Some(Gap(pp, sink))
    case Some(b) => if b != sink then Some(Gap(b, sink)) else None
  }

  function Targets(gaps: seq<Gap>): set<Hash>
  {
    set g | g in gaps :: g.to
  }

  /** `listed` enumerates the recorded gaps. */
  ghost predicate Lists(listed: seq<Gap>, gaps: map<Hash, Hash>)
  {
    && (forall g :: g in listed ==> g.to in gaps && gaps[g.to] == g.from)
    && (forall t :: t in gaps ==> Gap(gaps[t], t) in listed)
    && (forall i, j :: 0 <= i < j < |listed| ==> listed[i].to != listed[j].to)
  }

  /** Fillers to spawn, and the worker afterwards. */
  datatype Connection = Connection(worker: Worker, spawned: seq<Gap>)

  function OnConnected(w: Worker, sink: Hash, pp: Hash, listed: seq<Gap>): Connection
  {
    if !w.connected then
      var newGap := NewGap(w, sink, pp);
      var gaps := if newGap.Some? then listed + [newGap.value] else listed;
      Connection(
        w.(connected := true,
           gaps := if newGap.Some? then w.gaps[newGap.value.to := newGap.value.from] else w.gaps,
           handles := Targets(gaps),
           inProgress := |Targets(gaps)|),
        gaps)
    else if w.last.Some? then
      Connection(
        w.(last := None, gaps := w.gaps[sink := w.last.value],
           handles := w.handles + {sink}, inProgress := w.inProgress + 1),
        [Gap(w.last.value, sink)])
    else Connection(w, [])
  }

  function Stored(w: Worker, b: Hash): Worker
  {
    w.(headers := w.headers + {b})
  }

  function OnBlock(w: Worker, b: Hash): Worker
  {
    Stored(w, b).(last := Some(b), cursor := Some(b))
  }

  /** A batch: every block is stored, the gap ends where the batch ends. */
  function OnUpdate(w: Worker, target: Hash, blocks: seq<Hash>): Worker
  {
    if blocks == [] then w
    else
      w.(headers := w.headers + (set b | b in blocks),
         gaps := w.gaps[target := blocks[|blocks| - 1]])
  }

  function Settled(w: Worker, target: Hash): Worker
  {
    w.(handles := w.handles - {target}, inProgress := w.inProgress - 1)
  }

  function OnProgress(w: Worker, p: Progress): Worker
  {
    match p
    case Update(t, blocks) => OnUpdate(w, t, blocks)
    case Finished(t, blocks) =>
      Settled(w.(headers := w.headers + (set b | b in blocks), gaps := w.gaps - {t}), t)
    case Interrupted(t) => Settled(w, t)
    case Failed(t) => Settled(w, t)
  }

  predicate Exits(w: Worker)
  {
    w.shutdown && w.inProgress == 0
  }

  class BlockWorker {
    var connected: bool
    var handles: set<Hash>
    var inProgress: int
    var gaps: map<Hash, Hash>
    var headers: set<Hash>
    var last: Option<Hash>
    var cursor: Option<Hash>
    var shutdown: bool

    function Now(): Worker
      reads this
    {
      Worker(connected, handles, inProgress, gaps, headers, last, cursor, shutdown)
    }

    constructor (gaps: map<Hash, Hash>, headers: set<Hash>, cursor: Option<Hash>)
      ensures Now() == Worker(false, {}, 0, gaps, headers, None, cursor, false)
    {
      connected, handles, inProgress, last, shutdown := false, {}, 0, None, false;
      this.gaps, this.headers, this.cursor := gaps, headers, cursor;
    }

    method HandleConnected(sink: Hash, pp: Hash, listed: seq<Gap>) returns (spawned: seq<Gap>)
      requires Lists(listed, gaps)
      modifies this
      ensures Connection(Now(), spawned) == OnConnected(old(Now()), sink, pp, listed)
    {
      spawned := [];
      if !connected {
        connected := true;
        spawned := listed;
        if cursor.None? {
          gaps := gaps[sink := pp];
          spawned := spawned + [Gap(pp, sink)];
        } else if cursor.value != sink {
          gaps := gaps[sink := cursor.value];
          spawned := spawned + [Gap(cursor.value, sink)];
        }
        handles := CollectTargets(spawned);
        inProgress := |handles|;
      } else if last.Some? {
        gaps := gaps[sink := last.value];
        spawned := [Gap(last.value, sink)];
        handles := handles + {sink};
        inProgress := inProgress + 1;
        last := None;
      }
    }

    static method CollectTargets(gaps: seq<Gap>) returns (r: set<Hash>)
      ensures r == Targets(gaps)
    {
      r := {};
      var n := 0;
      while n < |gaps|
        invariant 0 <= n <= |gaps| && r == Targets(gaps[..n])
      {
        assert gaps[..n + 1] == gaps[..n] + [gaps[n]];
        r := r + {gaps[n].to};
        n := n + 1;
      }
      assert gaps[..n] == gaps;
    }

    method HandleNotification(b: Hash)
      modifies this
      ensures Now() == OnBlock(old(Now()), b)
    {
      headers := headers + {b};
      last := Some(b);
      cursor := Some(b);
    }

    method HandleProgress(p: Progress)
      requires p.Finished? ==> p.blocks != []
      modifies this
      ensures Now() == OnProgress(old(Now()), p)
    {
      StoreBatch(p.target, BlocksOf(p), p.Finished?);
      if !p.Update? {
        handles := handles - {p.target};
        inProgress := inProgress - 1;
      }
    }

    /** Every block of a batch in its own transaction, the last one removing the
        gap when the batch finishes it. */
    method StoreBatch(target: Hash, blocks: seq<Hash>, finished: bool)
      modifies this`headers, this`gaps
      ensures headers == old(headers) + (set b | b in blocks)
      ensures gaps == if blocks == [] then old(gaps)
                      else if finished then old(gaps) - {target}
                      else old(gaps)[target := blocks[|blocks| - 1]]
    {
      var n := 0;
      while n < |blocks|
        invariant 0 <= n <= |blocks|
        invariant gaps == if n == 0 then old(gaps)
                          else if finished && n == |blocks| then old(gaps) - {target}
                          else old(gaps)[target := blocks[n - 1]]
        invariant headers == old(headers) + (set b | b in blocks[..n])
      {
        var b := blocks[n];
        assert blocks[..n + 1] == blocks[..n] + [b];
        headers := headers + {b};
        if finished && n == |blocks| - 1 {
          gaps := gaps - {target};
        } else {
          gaps := gaps[target := b];
        }
        n := n + 1;
      }
      assert blocks[..n] == blocks;
    }
  }

  // ----- the worker with its fillers -----

  /** `Reported`: the terminal message was sent.  `Closed`: it was handled.
      `Dead`: the filler ended without one. */
  datatype Status = Running | Reported | Closed | Dead

  /** `delivered` are the blocks sent so far, `done` how many of them the worker
      has handled. */
  datatype Filler = Filler(gap: Gap, delivered: seq<Hash>, done: nat, status: Status)

  /** A progress message, with the filler it came from. */
  datatype Message = Message(sender: nat, p: Progress)

  datatype System = System(worker: Worker, fillers: seq<Filler>, channel: seq<Message>)

  datatype Action =
    | Connect(sink: Hash, pp: Hash, listed: seq<Gap>)
    | Disconnect
    | Shutdown
    | Notify(b: Hash)
    | Handle
    | Send(i: nat, p: Progress)
    | Die(i: nat)

  ghost predicate Enabled(sys: System, a: Action)
  {
    match a
    case Connect(_, _, listed) => Lists(listed, sys.worker.gaps)
    case Handle => sys.channel != []
    case Send(i, p) =>
      i < |sys.fillers| && sys.fillers[i].status == Running && Sendable(p, sys.fillers[i].gap.to)
    case Die(i) => i < |sys.fillers| && sys.fillers[i].status == Running
    case _ => true
  }

  function Spawn(gaps: seq<Gap>): seq<Filler>
  {
    seq(|gaps|, i requires 0 <= i < |gaps| => Filler(gaps[i], [], 0, Running))
  }

  /** The fillers after the worker handled one message. */
  function Heard(fs: seq<Filler>, m: Message): seq<Filler>
  {
    if m.sender >= |fs| then fs
    else
      var f := fs[m.sender];
      fs[m.sender := f.(done := f.done + |BlocksOf(m.p)|, status := if Terminal(m.p) then Closed else f.status)]
  }

  function Perform(sys: System, a: Action): System
    requires Enabled(sys, a)
  {
    match a
    case Connect(sink, pp, listed) =>
      var c := OnConnected(sys.worker, sink, pp, listed);
      sys.(worker := c.worker, fillers := sys.fillers + Spawn(c.spawned))
    case Disconnect => sys.(worker := sys.worker.(handles := {}))
    case Shutdown => sys.(worker := sys.worker.(handles := {}, shutdown := true))
    case Notify(b) => sys.(worker := OnBlock(sys.worker, b))
    case Handle =>
      var m := sys.channel[0];
      System(OnProgress(sys.worker, m.p), Heard(sys.fillers, m), sys.channel[1..])
    case Send(i, p) =>
      var f := sys.fillers[i];
      sys.(fillers := sys.fillers[i := f.(delivered := f.delivered + BlocksOf(p),
                                          status := if Terminal(p) then Reported else Running)],
           channel := sys.channel + [Message(i, p)])
    case Die(i) => sys.(fillers := sys.fillers[i := sys.fillers[i].(status := Dead)])
  }

  /** How many fillers' terminal messages the worker has not handled. */
  function Open(fs: seq<Filler>): nat
  {
    if fs == [] then 0 else (if fs[0].status != Closed then 1 else 0) + Open(fs[1..])
  }

  lemma {:induction false} OpenConcat(a: seq<Filler>, b: seq<Filler>)
    ensures Open(a + b) == Open(a) + Open(b)
  {
    if a == [] {
      assert a + b == b;
    } else {
      assert (a + b)[1..] == a[1..] + b;
      OpenConcat(a[1..], b);
    }
  }

  lemma {:induction false} OpenSpawn(gaps: seq<Gap>)
    ensures Open(Spawn(gaps)) == |gaps|
  {
    if gaps != [] {
      assert Spawn(gaps)[1..] == Spawn(gaps[1..]);
      OpenSpawn(gaps[1..]);
    }
  }

  lemma OpenUpdate(fs: seq<Filler>, i: nat, f: Filler)
    requires i < |fs|
    ensures Open(fs[i := f]) - (if f.status != Closed then 1 else 0)
         == Open(fs) - (if fs[i].status != Closed then 1 else 0)
  {
    assert fs == fs[..i] + ([fs[i]] + fs[i + 1..]);
    assert fs[i := f] == fs[..i] + ([f] + fs[i + 1..]);
    OpenConcat(fs[..i], [fs[i]] + fs[i + 1..]);
    OpenConcat(fs[..i], [f] + fs[i + 1..]);
    assert ([fs[i]] + fs[i + 1..])[1..] == fs[i + 1..] && ([f] + fs[i + 1..])[1..] == fs[i + 1..];
  }

  lemma {:induction false} OpenNone(fs: seq<Filler>)
    requires Open(fs) == 0
    ensures forall i :: 0 <= i < |fs| ==> fs[i].status == Closed
  {
    if fs != [] {
      OpenNone(fs[1..]);
      assert forall i :: 1 <= i < |fs| ==> fs[i] == fs[1..][i - 1];
    }
  }

  /** The messages of one filler still in the channel. */
  function Of(channel: seq<Message>, i: nat): seq<Progress>
  {
    if channel == [] then []
    else (if channel[0].sender == i then [channel[0].p] else []) + Of(channel[1..], i)
  }

  lemma {:induction false} OfSnoc(channel: seq<Message>, m: Message, i: nat)
    ensures Of(channel + [m], i) == Of(channel, i) + (if m.sender == i then [m.p] else [])
  {
    if channel != [] {
      assert (channel + [m])[1..] == channel[1..] + [m];
      OfSnoc(channel[1..], m, i);
    }
  }

  lemma {:induction false} OfNone(channel: seq<Message>, i: nat)
    requires forall m :: m in channel ==> m.sender != i
    ensures Of(channel, i) == []
  {
    if channel != [] { OfNone(channel[1..], i); }
  }

  lemma {:induction false} DeliveredSnoc(ps: seq<Progress>, p: Progress)
    ensures Delivered(ps + [p]) == Delivered(ps) + BlocksOf(p)
  {
    if ps != [] {
      assert (ps + [p])[1..] == ps[1..] + [p];
      DeliveredSnoc(ps[1..], p);
    }
  }

  /** The pending messages of a filler: its status says whether the last one is
      terminal, and they carry the delivered blocks not handled yet, in order. */
  predicate InTransit(f: Filler, mine: seq<Progress>)
  {
    && f.done <= |f.delivered| && Delivered(mine) == f.delivered[f.done..]
    && (forall k :: 0 <= k < |mine| ==> Sendable(mine[k], f.gap.to))
    && (forall k :: 0 <= k < |mine| ==> (Terminal(mine[k]) <==> f.status == Reported && k == |mine| - 1))
    && (f.status == Reported ==> mine != [])
    && (f.status == Closed ==> mine == [])
  }

  ghost predicate Channels(sys: System)
  {
    && (forall m :: m in sys.channel ==> m.sender < |sys.fillers|)
    && (forall i :: 0 <= i < |sys.fillers| ==> InTransit(sys.fillers[i], Of(sys.channel, i)))
  }

  /** The worker's counter is the number of fillers it has not heard the end of. */
  ghost predicate Counted(sys: System)
  {
    && Channels(sys)
    && sys.worker.inProgress == Open(sys.fillers)
    && (!sys.worker.connected ==> sys.fillers == [])
  }

  /** The first connection would spawn two fillers for one target. */
  predicate TargetTwice(w: Worker, sink: Hash, pp: Hash)
  {
    !w.connected && NewGap(w, sink, pp).Some? && sink in w.gaps
  }

  lemma {:induction false} TargetCount(gaps: seq<Gap>)
    requires forall i, j :: 0 <= i < j < |gaps| ==> gaps[i].to != gaps[j].to
    ensures |Targets(gaps)| == |gaps|
  {
    if gaps != [] {
      var n := |gaps| - 1;
      TargetCount(gaps[..n]);
      TargetsSnoc(gaps[..n], gaps[n]);
      assert gaps == gaps[..n] + [gaps[n]];
    }
  }

  lemma TargetsSnoc(gaps: seq<Gap>, g: Gap)
    requires forall i :: 0 <= i < |gaps| ==> gaps[i].to != g.to
    ensures Targets(gaps + [g]) == Targets(gaps) + {g.to} && g.to !in Targets(gaps)
  {
    assert forall x :: x in gaps + [g] <==> x in gaps || x == g;
  }

  /** Handles counted at the first connection, against fillers spawned. */
  lemma FirstConnectCount(w: Worker, sink: Hash, pp: Hash, listed: seq<Gap>)
    requires Lists(listed, w.gaps) && !w.connected
    ensures var c := OnConnected(w, sink, pp, listed);
            c.worker.inProgress == |c.spawned| <==> !TargetTwice(w, sink, pp)
  {
    TargetCount(listed);
    var newGap := NewGap(w, sink, pp);
    if newGap.Some? {
      ListedTarget(listed, w.gaps, sink);
      OneMoreTarget(listed, newGap.value);
    }
  }

  lemma ListedTarget(listed: seq<Gap>, gaps: map<Hash, Hash>, t: Hash)
    requires Lists(listed, gaps)
    ensures t in Targets(listed) <==> t in gaps
  {
    if t in gaps { assert Gap(gaps[t], t) in listed; }
  }

  lemma OneMoreTarget(gaps: seq<Gap>, g: Gap)
    requires |Targets(gaps)| == |gaps|
    ensures |Targets(gaps + [g])| == |gaps + [g]| <==> g.to !in Targets(gaps)
  {
    assert forall x :: x in gaps + [g] <==> x in gaps || x == g;
    assert Targets(gaps + [g]) == Targets(gaps) + {g.to};
  }

  /** At a connection the counter comes out right exactly when no recorded gap has
      the new gap's target. */
  lemma ConnectCounts(sys: System, sink: Hash, pp: Hash, listed: seq<Gap>)
    requires Counted(sys) && Lists(listed, sys.worker.gaps)
    ensures var sys' := Perform(sys, Connect(sink, pp, listed));
            Counted(sys') <==> !TargetTwice(sys.worker, sink, pp)
  {
    var c := OnConnected(sys.worker, sink, pp, listed);
    OpenSpawn(c.spawned);
    OpenConcat(sys.fillers, Spawn(c.spawned));
    SpawnChannels(sys, c);
    if !sys.worker.connected { FirstConnectCount(sys.worker, sink, pp, listed); }
  }

  lemma SpawnChannels(sys: System, c: Connection)
    requires Channels(sys)
    ensures Channels(sys.(worker := c.worker, fillers := sys.fillers + Spawn(c.spawned)))
  {
    var fs := sys.fillers + Spawn(c.spawned);
    forall i | 0 <= i < |fs| ensures InTransit(fs[i], Of(sys.channel, i)) {
      if i >= |sys.fillers| { OfNone(sys.channel, i); }
    }
  }

  /** The family that fails: a gap to the sink is still on record from an earlier
      process.  Two fillers run, one is counted, and the counter goes below zero. */
  lemma CounterUnderflows(s: Hash, a: Hash, b: Hash, pp: Hash)
    requires b != s
    ensures var w := Worker(false, {}, 0, map[s := a], {}, None, Some(b), false);
            var sys1 := Perform(System(w, [], []), Connect(s, pp, [Gap(a, s)]));
            && Counted(System(w, [], [])) && Lists([Gap(a, s)], w.gaps) && |sys1.fillers| == 2
            && var sys2 := Perform(Perform(sys1, Send(0, Finished(s, [s]))), Send(1, Finished(s, [s])));
               Perform(Perform(sys2, Handle), Handle).worker.inProgress == -1
  {
    var w := Worker(false, {}, 0, map[s := a], {}, None, Some(b), false);
    assert Lists([Gap(a, s)], w.gaps);
    var c := OnConnected(w, s, pp, [Gap(a, s)]);
    assert c.spawned == [Gap(a, s), Gap(b, s)];
    assert Targets(c.spawned) == {s};
  }

  lemma SendInTransit(f: Filler, mine: seq<Progress>, p: Progress)
    requires InTransit(f, mine) && f.status == Running && Sendable(p, f.gap.to)
    ensures InTransit(f.(delivered := f.delivered + BlocksOf(p), status := if Terminal(p) then Reported else Running),
                      mine + [p])
  {
    DeliveredSnoc(mine, p);
    assert (f.delivered + BlocksOf(p))[f.done..] == f.delivered[f.done..] + BlocksOf(p);
  }

  lemma SendCounts(sys: System, i: nat, p: Progress)
    requires Counted(sys) && Enabled(sys, Send(i, p))
    ensures Counted(Perform(sys, Send(i, p)))
  {
    var sys' := Perform(sys, Send(i, p));
    OpenUpdate(sys.fillers, i, sys'.fillers[i]);
    forall j | 0 <= j < |sys'.fillers| ensures InTransit(sys'.fillers[j], Of(sys'.channel, j)) {
      OfSnoc(sys.channel, Message(i, p), j);
      assert InTransit(sys.fillers[j], Of(sys.channel, j));
      if j == i {
        SendInTransit(sys.fillers[i], Of(sys.channel, i), p);
      } else {
        assert Of(sys'.channel, j) == Of(sys.channel, j);
      }
    }
  }

  lemma DieCounts(sys: System, i: nat)
    requires Counted(sys) && Enabled(sys, Die(i))
    ensures Counted(Perform(sys, Die(i)))
  {
    var sys' := Perform(sys, Die(i));
    OpenUpdate(sys.fillers, i, sys'.fillers[i]);
    forall j | 0 <= j < |sys'.fillers| ensures InTransit(sys'.fillers[j], Of(sys'.channel, j)) {
      assert InTransit(sys.fillers[j], Of(sys.channel, j));
    }
  }

  /** The message at the head of the channel: it is the oldest of its filler, its
      blocks are the next delivered ones, and its filler is still counted. */
  lemma HeadMessage(sys: System)
    requires Channels(sys) && sys.channel != []
    ensures sys.channel[0].sender < |sys.fillers|
    ensures var m := sys.channel[0];
            var f := sys.fillers[m.sender];
            && Sendable(m.p, f.gap.to) && f.status != Closed
            && f.done + |BlocksOf(m.p)| <= |f.delivered|
            && f.delivered[f.done..f.done + |BlocksOf(m.p)|] == BlocksOf(m.p)
            && InTransit(Heard(sys.fillers, m)[m.sender], Of(sys.channel[1..], m.sender))
  {
    var m := sys.channel[0];
    assert m in sys.channel;
    var f, mine := sys.fillers[m.sender], Of(sys.channel, m.sender);
    var rest := Of(sys.channel[1..], m.sender);
    assert mine == [m.p] + rest && mine[0] == m.p;
    assert InTransit(f, mine);
    HandleInTransit(f, m.p, rest);
  }

  lemma HandleChannels(sys: System)
    requires Channels(sys) && sys.channel != []
    ensures Channels(Perform(sys, Handle))
  {
    HeadMessage(sys);
    var m, sys' := sys.channel[0], Perform(sys, Handle);
    assert forall x :: x in sys'.channel ==> x in sys.channel;
    forall j | 0 <= j < |sys'.fillers| ensures InTransit(sys'.fillers[j], Of(sys'.channel, j)) {
      if j != m.sender {
        assert InTransit(sys.fillers[j], Of(sys.channel, j));
        assert Of(sys.channel, j) == Of(sys'.channel, j);
      }
    }
  }

  /** Handling a terminal message finds the counter above zero. */
  lemma HandleCounts(sys: System)
    requires Counted(sys) && sys.channel != []
    ensures Counted(Perform(sys, Handle))
    ensures Terminal(sys.channel[0].p) ==> sys.worker.inProgress > 0
  {
    HeadMessage(sys);
    HandleChannels(sys);
    OpenHeard(sys.fillers, sys.channel[0]);
  }

  lemma OpenHeard(fs: seq<Filler>, m: Message)
    requires m.sender < |fs| && fs[m.sender].status != Closed
    ensures Open(Heard(fs, m)) == Open(fs) - (if Terminal(m.p) then 1 else 0)
  {
    OpenUpdate(fs, m.sender, Heard(fs, m)[m.sender]);
  }

  lemma HandleInTransit(f: Filler, p: Progress, rest: seq<Progress>)
    requires InTransit(f, [p] + rest)
    ensures f.status != Closed && f.done + |BlocksOf(p)| <= |f.delivered|
    ensures f.delivered[f.done..f.done + |BlocksOf(p)|] == BlocksOf(p)
    ensures InTransit(f.(done := f.done + |BlocksOf(p)|, status := if Terminal(p) then Closed else f.status), rest)
  {
    var mine := [p] + rest;
    assert mine[0] == p && mine[1..] == rest;
    assert Delivered(mine) == BlocksOf(p) + Delivered(rest);
    var n := |BlocksOf(p)|;
    assert f.delivered[f.done..][..n] == BlocksOf(p) && f.delivered[f.done..][n..] == Delivered(rest);
    assert f.delivered[f.done..][n..] == f.delivered[f.done + n..];
    assert forall k :: 0 <= k < |rest| ==> rest[k] == mine[k + 1];
  }

  /** Every step keeps the count, unless the first connection meets a target twice. */
  lemma StepCounts(sys: System, a: Action)
    requires Counted(sys) && Enabled(sys, a)
    requires a.Connect? ==> !TargetTwice(sys.worker, a.sink, a.pp)
    ensures Counted(Perform(sys, a))
  {
    match a {
      case Connect(sink, pp, listed) => ConnectCounts(sys, sink, pp, listed);
      case Handle => HandleCounts(sys);
      case Send(i, p) => SendCounts(sys, i, p);
      case Die(i) => DieCounts(sys, i);
      case Notify(b) =>
        forall i | 0 <= i < |sys.fillers| ensures InTransit(sys.fillers[i], Of(sys.channel, i)) {}
      case _ =>
    }
  }

  // ----- gaps and headers -----

  /** Where a filler's recorded gap stands. */
  function Position(f: Filler): Hash
    requires f.done <= |f.delivered|
  {
    if f.done == 0 then f.gap.from else f.delivered[f.done - 1]
  }

  /** The handled blocks of a filler are stored; its gap, while on record, ends at
      the last of them; and the gap is off the record only when the filler finished
      and its target is stored. */
  ghost predicate Kept(w: Worker, f: Filler)
  {
    && f.done <= |f.delivered|
    && (forall k :: 0 <= k < f.done ==> f.delivered[k] in w.headers)
    && (f.gap.to in w.gaps ==> w.gaps[f.gap.to] == Position(f))
    && (f.gap.to !in w.gaps ==> f.status == Closed && f.gap.to in f.delivered[..f.done])
  }

  predicate DistinctTargets(fs: seq<Filler>)
  {
    forall i, j :: 0 <= i < j < |fs| ==> fs[i].gap.to != fs[j].gap.to
  }

  ghost predicate AllKept(w: Worker, fs: seq<Filler>)
  {
    forall i :: 0 <= i < |fs| ==> Kept(w, fs[i])
  }

  ghost predicate GapsKept(sys: System)
  {
    Counted(sys) && DistinctTargets(sys.fillers) && AllKept(sys.worker, sys.fillers)
  }

  /** No connection opens a gap to a block that is or was a filler's target. */
  ghost predicate NewTarget(sys: System, a: Action)
  {
    a.Connect? ==>
      && !TargetTwice(sys.worker, a.sink, a.pp)
      && (sys.worker.connected ==> forall i :: 0 <= i < |sys.fillers| ==> sys.fillers[i].gap.to != a.sink)
  }

  lemma ConnectDistinct(sys: System, sink: Hash, pp: Hash, listed: seq<Gap>)
    requires GapsKept(sys) && Lists(listed, sys.worker.gaps) && NewTarget(sys, Connect(sink, pp, listed))
    ensures DistinctTargets(sys.fillers + Spawn(OnConnected(sys.worker, sink, pp, listed).spawned))
  {
    var c := OnConnected(sys.worker, sink, pp, listed);
    if !sys.worker.connected {
      assert sys.fillers == [];
      forall i, j | 0 <= i < j < |c.spawned| ensures c.spawned[i].to != c.spawned[j].to {
        if j == |listed| { assert c.spawned[i] in listed; }
      }
    }
  }

  /** A filler keeps its place when a connection records other gaps. */
  lemma ConnectKept(w: Worker, sink: Hash, pp: Hash, listed: seq<Gap>, f: Filler)
    requires Lists(listed, w.gaps) && Kept(w, f) && w.connected && f.gap.to != sink
    ensures Kept(OnConnected(w, sink, pp, listed).worker, f)
  {
  }

  lemma SpawnedKept(w: Worker, sink: Hash, pp: Hash, listed: seq<Gap>, g: Gap)
    requires Lists(listed, w.gaps) && !TargetTwice(w, sink, pp)
    requires g in OnConnected(w, sink, pp, listed).spawned
    ensures Kept(OnConnected(w, sink, pp, listed).worker, Filler(g, [], 0, Running))
  {
  }

  lemma ConnectKeeps(sys: System, sink: Hash, pp: Hash, listed: seq<Gap>)
    requires GapsKept(sys) && Lists(listed, sys.worker.gaps) && NewTarget(sys, Connect(sink, pp, listed))
    ensures GapsKept(Perform(sys, Connect(sink, pp, listed)))
  {
    ConnectCounts(sys, sink, pp, listed);
    ConnectDistinct(sys, sink, pp, listed);
    var c := OnConnected(sys.worker, sink, pp, listed);
    var fs := sys.fillers + Spawn(c.spawned);
    forall i | 0 <= i < |fs| ensures Kept(c.worker, fs[i]) {
      if i >= |sys.fillers| {
        SpawnedKept(sys.worker, sink, pp, listed, c.spawned[i - |sys.fillers|]);
      } else {
        ConnectKept(sys.worker, sink, pp, listed, sys.fillers[i]);
      }
    }
  }

  /** The filler whose message is handled keeps its place. */
  lemma HandledKept(w: Worker, f: Filler, p: Progress)
    requires Kept(w, f) && Sendable(p, f.gap.to) && f.status != Closed
    requires f.done + |BlocksOf(p)| <= |f.delivered|
    requires f.delivered[f.done..f.done + |BlocksOf(p)|] == BlocksOf(p)
    ensures Kept(OnProgress(w, p), f.(done := f.done + |BlocksOf(p)|, status := if Terminal(p) then Closed else f.status))
  {
    var n, w' := |BlocksOf(p)|, OnProgress(w, p);
    forall k | 0 <= k < f.done + n ensures f.delivered[k] in w'.headers {
      if k >= f.done {
        assert f.delivered[f.done..f.done + n][k - f.done] == f.delivered[k];
        assert f.delivered[k] in BlocksOf(p);
      }
    }
    if p.Update? {
      assert BlocksOf(p)[n - 1] == f.delivered[f.done..f.done + n][n - 1] == f.delivered[f.done + n - 1];
    }
    if p.Finished? {
      assert f.delivered[..f.done + n] == f.delivered[..f.done] + BlocksOf(p);
    }
  }

  lemma OtherKept(w: Worker, f: Filler, p: Progress)
    requires Kept(w, f) && f.gap.to != p.target
    ensures Kept(OnProgress(w, p), f)
  {
  }

  lemma HandledAllKept(w: Worker, fs: seq<Filler>, i: nat, p: Progress)
    requires DistinctTargets(fs) && AllKept(w, fs) && i < |fs| && Sendable(p, fs[i].gap.to) && fs[i].status != Closed
    requires fs[i].done + |BlocksOf(p)| <= |fs[i].delivered|
    requires fs[i].delivered[fs[i].done..fs[i].done + |BlocksOf(p)|] == BlocksOf(p)
    ensures var fs' := Heard(fs, Message(i, p));
            DistinctTargets(fs') && AllKept(OnProgress(w, p), fs')
  {
    var fs' := Heard(fs, Message(i, p));
    forall j | 0 <= j < |fs'| ensures Kept(OnProgress(w, p), fs'[j]) {
      if j == i {
        HandledKept(w, fs[i], p);
      } else {
        OtherKept(w, fs[j], p);
      }
    }
  }

  lemma HandleKeeps(sys: System)
    requires GapsKept(sys) && sys.channel != []
    ensures sys.channel[0].sender < |sys.fillers| && GapsKept(Perform(sys, Handle))
  {
    HandleCounts(sys);
    HeadMessage(sys);
    HandledAllKept(sys.worker, sys.fillers, sys.channel[0].sender, sys.channel[0].p);
  }

  /** Blocks still in transit change nothing that is on record. */
  lemma SentKept(w: Worker, f: Filler, more: seq<Hash>, status: Status)
    requires Kept(w, f) && f.status == Running
    ensures Kept(w, f.(delivered := f.delivered + more, status := status))
  {
    assert (f.delivered + more)[..f.done] == f.delivered[..f.done];
  }

  lemma SendKeeps(sys: System, i: nat, p: Progress)
    requires GapsKept(sys) && Enabled(sys, Send(i, p))
    ensures GapsKept(Perform(sys, Send(i, p)))
  {
    SendCounts(sys, i, p);
    SentKept(sys.worker, sys.fillers[i], BlocksOf(p), if Terminal(p) then Reported else Running);
    assert Kept(sys.worker, Perform(sys, Send(i, p)).fillers[i]);
  }

  lemma StepKeeps(sys: System, a: Action)
    requires GapsKept(sys) && Enabled(sys, a) && NewTarget(sys, a)
    ensures GapsKept(Perform(sys, a))
  {
    match a {
      case Connect(sink, pp, listed) => ConnectKeeps(sys, sink, pp, listed);
      case Handle => HandleKeeps(sys);
      case Send(i, p) => SendKeeps(sys, i, p);
      case _ => QuietKeeps(sys, a);
    }
  }

  lemma QuietKeeps(sys: System, a: Action)
    requires GapsKept(sys) && Enabled(sys, a) && !a.Connect? && !a.Handle? && !a.Send?
    ensures GapsKept(Perform(sys, a))
  {
    StepCounts(sys, a);
    var sys' := Perform(sys, a);
    forall j | 0 <= j < |sys'.fillers| ensures Kept(sys'.worker, sys'.fillers[j]) {
      assert Kept(sys.worker, sys.fillers[j]);
    }
  }

  // ----- whole runs -----

  ghost predicate Run(sys: System, actions: seq<Action>, end: System, distinct: bool)
    decreases |actions|
  {
    if actions == [] then end == sys
    else
      && Enabled(sys, actions[0])
      && (if distinct then NewTarget(sys, actions[0])
          else actions[0].Connect? ==> !TargetTwice(sys.worker, actions[0].sink, actions[0].pp))
      && Run(Perform(sys, actions[0]), actions[1..], end, distinct)
  }

  predicate Fresh(sys: System)
  {
    sys.fillers == [] && sys.channel == [] && sys.worker.handles == {} && sys.worker.inProgress == 0 && !sys.worker.connected
  }

  lemma {:induction false} RunCounts(sys: System, actions: seq<Action>, end: System)
    requires Counted(sys) && Run(sys, actions, end, false)
    ensures Counted(end)
    decreases |actions|
  {
    if actions != [] {
      StepCounts(sys, actions[0]);
      RunCounts(Perform(sys, actions[0]), actions[1..], end);
    }
  }

  lemma {:induction false} RunKeeps(sys: System, actions: seq<Action>, end: System)
    requires GapsKept(sys) && Run(sys, actions, end, true)
    ensures GapsKept(end)
    decreases |actions|
  {
    if actions != [] {
      StepKeeps(sys, actions[0]);
      RunKeeps(Perform(sys, actions[0]), actions[1..], end);
    }
  }

  /** In every run whose first connection meets no target twice, the counter equals
      the number of fillers whose end is unhandled, never drops below zero, and the
      worker exits exactly when it was told to shut down and every filler has
      reported. */
  lemma CounterExact(sys: System, actions: seq<Action>, end: System)
    requires Fresh(sys) && Run(sys, actions, end, false)
    ensures end.worker.inProgress == Open(end.fillers) >= 0
    ensures Exits(end.worker) <==>
              && (sys.worker.shutdown || Shutdown in actions)
              && (forall i :: 0 <= i < |end.fillers| ==> end.fillers[i].status == Closed)
  {
    RunCounts(sys, actions, end);
    RunShutdown(sys, actions, end, false);
    if Open(end.fillers) == 0 { OpenNone(end.fillers); } else { OpenSome(end.fillers); }
  }

  lemma {:induction false} OpenSome(fs: seq<Filler>)
    requires Open(fs) > 0
    ensures exists i :: 0 <= i < |fs| && fs[i].status != Closed
  {
    if fs[0].status == Closed {
      OpenSome(fs[1..]);
      var i :| 0 <= i < |fs[1..]| && fs[1..][i].status != Closed;
      assert fs[i + 1].status != Closed;
    }
  }

  lemma {:induction false} RunShutdown(sys: System, actions: seq<Action>, end: System, distinct: bool)
    requires Run(sys, actions, end, distinct)
    ensures end.worker.shutdown <==> sys.worker.shutdown || Shutdown in actions
    decreases |actions|
  {
    if actions != [] {
      RunShutdown(Perform(sys, actions[0]), actions[1..], end, distinct);
      assert forall a :: a in actions <==> a == actions[0] || a in actions[1..];
    }
  }

  /** In every run with pairwise distinct targets: while a gap is on record, every
      block its filler delivered up to the recorded position has a stored header;
      a gap leaves the record only after a batch with its target was handled. */
  lemma GapsFilled(sys: System, actions: seq<Action>, end: System, i: nat)
    requires Fresh(sys) && Run(sys, actions, end, true) && i < |end.fillers|
    ensures Kept(end.worker, end.fillers[i])
    ensures end.fillers[i].gap.to !in end.worker.gaps ==> end.fillers[i].gap.to in end.worker.headers
  {
    RunKeeps(sys, actions, end);
    var f := end.fillers[i];
    assert Kept(end.worker, f);
    if f.gap.to !in end.worker.gaps {
      var k :| 0 <= k < f.done && f.delivered[..f.done][k] == f.gap.to;
      assert f.delivered[k] in end.worker.headers;
    }
  }

  // ----- which headers are stored -----

  /** The blocks of a filler that the worker has handled. */
  ghost predicate HandledBlock(fs: seq<Filler>, b: Hash)
  {
    exists i, k :: 0 <= i < |fs| && 0 <= k < fs[i].done && k < |fs[i].delivered| && fs[i].delivered[k] == b
  }

  lemma SpawnHandled(fs: seq<Filler>, gaps: seq<Gap>, b: Hash)
    ensures HandledBlock(fs + Spawn(gaps), b) <==> HandledBlock(fs, b)
  {
    var all := fs + Spawn(gaps);
    if i, k :| 0 <= i < |all| && 0 <= k < all[i].done && k < |all[i].delivered| && all[i].delivered[k] == b {
      assert i < |fs| && fs[i] == all[i];
    }
    if i, k :| 0 <= i < |fs| && 0 <= k < fs[i].done && k < |fs[i].delivered| && fs[i].delivered[k] == b {
      assert all[i] == fs[i];
    }
  }

  lemma SameHandled(fs: seq<Filler>, i: nat, f: Filler, b: Hash)
    requires i < |fs| && fs[i].done == f.done <= |fs[i].delivered| && fs[i].delivered <= f.delivered
    ensures HandledBlock(fs[i := f], b) <==> HandledBlock(fs, b)
  {
    var fs' := fs[i := f];
    if j, k :| 0 <= j < |fs'| && 0 <= k < fs'[j].done && k < |fs'[j].delivered| && fs'[j].delivered[k] == b {
      assert fs[j].delivered[k] == b;
    }
    if j, k :| 0 <= j < |fs| && 0 <= k < fs[j].done && k < |fs[j].delivered| && fs[j].delivered[k] == b {
      assert fs'[j].delivered[k] == b;
    }
  }

  lemma MoreHandled(fs: seq<Filler>, i: nat, f: Filler, blocks: seq<Hash>, b: Hash)
    requires i < |fs| && f.delivered == fs[i].delivered && f.done == fs[i].done + |blocks| <= |f.delivered|
    requires f.delivered[fs[i].done..f.done] == blocks
    ensures HandledBlock(fs[i := f], b) <==> HandledBlock(fs, b) || b in blocks
  {
    var fs' := fs[i := f];
    if j, k :| 0 <= j < |fs'| && 0 <= k < fs'[j].done && k < |fs'[j].delivered| && fs'[j].delivered[k] == b {
      if j == i && k >= fs[i].done {
        assert blocks[k - fs[i].done] == b;
      } else {
        assert fs[j].delivered[k] == b;
      }
    }
    if j, k :| 0 <= j < |fs| && 0 <= k < fs[j].done && k < |fs[j].delivered| && fs[j].delivered[k] == b {
      assert fs'[j].delivered[k] == b;
    }
    if b in blocks {
      var k :| 0 <= k < |blocks| && blocks[k] == b;
      assert fs'[i].delivered[fs[i].done + k] == b;
    }
  }

  lemma ProgressStores(w: Worker, p: Progress, b: Hash)
    ensures b in OnProgress(w, p).headers <==> b in w.headers || b in BlocksOf(p)
  {
  }

  lemma HandleStores(sys: System, b: Hash)
    requires Channels(sys) && sys.channel != []
    ensures b in Perform(sys, Handle).worker.headers <==> b in sys.worker.headers || b in BlocksOf(sys.channel[0].p)
    ensures HandledBlock(Perform(sys, Handle).fillers, b) <==>
              HandledBlock(sys.fillers, b) || b in BlocksOf(sys.channel[0].p)
  {
    HeadMessage(sys);
    var m := sys.channel[0];
    MoreHandled(sys.fillers, m.sender, Heard(sys.fillers, m)[m.sender], BlocksOf(m.p), b);
    ProgressStores(sys.worker, m.p, b);
  }

  /** A step stores the block it is notified of and the blocks of the batch it handles. */
  lemma StepStores(sys: System, a: Action, b: Hash)
    requires Channels(sys) && Enabled(sys, a)
    ensures var sys' := Perform(sys, a);
            b in sys'.worker.headers <==>
              b in sys.worker.headers || a == Notify(b) || (a.Handle? && b in BlocksOf(sys.channel[0].p))
    ensures HandledBlock(Perform(sys, a).fillers, b) <==>
              HandledBlock(sys.fillers, b) || (a.Handle? && b in BlocksOf(sys.channel[0].p))
  {
    match a {
      case Connect(sink, pp, listed) => SpawnHandled(sys.fillers, OnConnected(sys.worker, sink, pp, listed).spawned, b);
      case Handle => HandleStores(sys, b);
      case Send(i, p) =>
        assert InTransit(sys.fillers[i], Of(sys.channel, i));
        SameHandled(sys.fillers, i, Perform(sys, a).fillers[i], b);
      case Die(i) =>
        assert InTransit(sys.fillers[i], Of(sys.channel, i));
        SameHandled(sys.fillers, i, Perform(sys, a).fillers[i], b);
      case _ =>
    }
  }

  lemma {:induction false} RunStores(sys: System, actions: seq<Action>, end: System, b: Hash)
    requires Counted(sys) && Run(sys, actions, end, false)
    requires HandledBlock(sys.fillers, b) ==> b in sys.worker.headers
    ensures b in end.worker.headers <==>
              b in sys.worker.headers || Notify(b) in actions || HandledBlock(end.fillers, b)
    decreases |actions|
  {
    if actions != [] {
      var a, next := actions[0], Perform(sys, actions[0]);
      StepCounts(sys, a);
      StepStores(sys, a, b);
      RunStores(next, actions[1..], end, b);
      assert forall x :: x in actions <==> x == a || x in actions[1..];
      if b in next.worker.headers && b !in sys.worker.headers && a != Notify(b) {
        RunKeepsHandled(next, actions[1..], end, b);
      }
    }
  }

  lemma {:induction false} RunKeepsHandled(sys: System, actions: seq<Action>, end: System, b: Hash)
    requires Counted(sys) && Run(sys, actions, end, false) && HandledBlock(sys.fillers, b)
    ensures HandledBlock(end.fillers, b)
    decreases |actions|
  {
    if actions != [] {
      StepCounts(sys, actions[0]);
      StepStores(sys, actions[0], b);
      RunKeepsHandled(Perform(sys, actions[0]), actions[1..], end, b);
    }
  }

  /** Over every run the stored headers are those of before, those of notified blocks,
      and those of the blocks the worker has handled for its fillers. */
  lemma HeadersExactly(sys: System, actions: seq<Action>, end: System, b: Hash)
    requires Fresh(sys) && Run(sys, actions, end, false)
    ensures b in end.worker.headers <==>
              b in sys.worker.headers || Notify(b) in actions || HandledBlock(end.fillers, b)
  {
    RunStores(sys, actions, end, b);
  }

  // ----- what a connection covers -----

  /** The last block notified since the latest reconnection, if any. */
  function LastNotified(connected: bool, last: Option<Hash>, actions: seq<Action>): Option<Hash>
    decreases |actions|
  {
    if actions == [] then last
    else
      match actions[0]
      case Notify(b) => LastNotified(connected, Some(b), actions[1..])
      case Connect(_, _, _) => LastNotified(true, if connected then None else last, actions[1..])
      case _ => LastNotified(connected, last, actions[1..])
  }

  /** The last block notified at all. */
  function LatestBlock(cursor: Option<Hash>, actions: seq<Action>): Option<Hash>
    decreases |actions|
  {
    if actions == [] then cursor
    else LatestBlock(if actions[0].Notify? then Some(actions[0].b) else cursor, actions[1..])
  }

  lemma {:induction false} RunRemembers(sys: System, actions: seq<Action>, end: System, distinct: bool)
    requires Run(sys, actions, end, distinct)
    ensures end.worker.last == LastNotified(sys.worker.connected, sys.worker.last, actions)
    ensures end.worker.cursor == LatestBlock(sys.worker.cursor, actions)
    ensures end.worker.connected == (sys.worker.connected || exists a :: a in actions && a.Connect?)
    decreases |actions|
  {
    if actions != [] {
      RunRemembers(Perform(sys, actions[0]), actions[1..], end, distinct);
      assert forall a :: a in actions <==> a == actions[0] || a in actions[1..];
    }
  }

  /** A reconnection opens a gap exactly when a block was notified since the
      connection before it, and then from the last such block to the new sink. */
  lemma ReconnectCovers(sys: System, actions: seq<Action>, end: System, distinct: bool, sink: Hash, pp: Hash, listed: seq<Gap>)
    requires Fresh(sys) && Run(sys, actions, end, distinct) && Lists(listed, end.worker.gaps)
    requires exists a :: a in actions && a.Connect?
    ensures var b, c := LastNotified(false, sys.worker.last, actions), OnConnected(end.worker, sink, pp, listed);
            if b.Some? then c.spawned == [Gap(b.value, sink)] && c.worker.gaps == end.worker.gaps[sink := b.value]
            else c.spawned == [] && c.worker == end.worker
  {
    RunRemembers(sys, actions, end, distinct);
  }

  /** Two connections with no block in between: nothing is opened from the first
      sink to the second. */
  lemma SecondOutageUncovered(sys: System, sink: Hash, sink': Hash, pp: Hash, listed: seq<Gap>, listed': seq<Gap>)
    requires Fresh(sys) && sys.worker.last == None && Enabled(sys, Connect(sink, pp, listed))
    requires Enabled(Perform(sys, Connect(sink, pp, listed)), Connect(sink', pp, listed'))
    ensures var sys1 := Perform(sys, Connect(sink, pp, listed));
            Perform(sys1, Connect(sink', pp, listed')) == sys1
  {
    var sys1 := Perform(sys, Connect(sink, pp, listed));
    assert sys1.fillers + Spawn([]) == sys1.fillers;
  }

  /** A restart opens the gap from the last block ever notified, or from the pruning
      point when there is none, and starts a filler for every gap on record. */
  lemma RestartCovers(sys: System, actions: seq<Action>, end: System, distinct: bool, sink: Hash, pp: Hash, listed: seq<Gap>)
    requires Run(sys, actions, end, distinct) && Lists(listed, end.worker.gaps)
    ensures var w := Worker(false, {}, 0, end.worker.gaps, end.worker.headers, None, end.worker.cursor, false);
            var b, c := LatestBlock(sys.worker.cursor, actions), OnConnected(w, sink, pp, listed);
            if b == Some(sink) then c.spawned == listed && c.worker.gaps == end.worker.gaps
            else
              var from := if b.Some? then b.value else pp;
              c.spawned == listed + [Gap(from, sink)] && c.worker.gaps == end.worker.gaps[sink := from]
  {
    RunRemembers(sys, actions, end, distinct);
  }

  lemma HandledGaps(sys: System)
    requires GapsKept(sys) && sys.channel != []
    ensures Perform(sys, Handle).worker.gaps.Keys <= sys.worker.gaps.Keys
  {
    HeadMessage(sys);
    assert Kept(sys.worker, sys.fillers[sys.channel[0].sender]);
  }

  /** Without a connection no gap comes on record. */
  lemma {:induction false} NoNewGap(sys: System, actions: seq<Action>, end: System)
    requires GapsKept(sys) && Run(sys, actions, end, true) && forall a :: a in actions ==> !a.Connect?
    ensures end.worker.gaps.Keys <= sys.worker.gaps.Keys
    decreases |actions|
  {
    if actions != [] {
      var a := actions[0];
      assert a in actions && forall x :: x in actions[1..] ==> x in actions;
      StepKeeps(sys, a);
      if a.Handle? { HandledGaps(sys); }
      NoNewGap(Perform(sys, a), actions[1..], end);
    }
  }

  lemma {:induction false} LatestNotified(cursor: Option<Hash>, actions: seq<Action>)
    ensures (forall a :: a in actions ==> !a.Notify?) ==> LatestBlock(cursor, actions) == cursor
    ensures (exists a :: a in actions && a.Notify?) ==>
              LatestBlock(cursor, actions).Some? && Notify(LatestBlock(cursor, actions).value) in actions
    decreases |actions|
  {
    if actions != [] {
      var a, rest := actions[0], actions[1..];
      assert forall x :: x in actions <==> x == a || x in rest;
      LatestNotified(if a.Notify? then Some(a.b) else cursor, rest);
    }
  }

  /** What becomes of such an outage.  After it the run goes on to `end` without
      another connection; then the process restarts and connects to `sink`.  It
      fills the gaps still on record, all of them recorded before the outage, and
      one more gap to `sink`.  That one starts from the cursor of before the outage
      when no block was notified since, and so spans the outage.  Otherwise it
      starts from the last block notified since, and nothing that was not on record
      before the outage leads up to it. */
  lemma SecondOutageLost(sys: System, before: seq<Action>, mid: System, sink': Hash, pp': Hash, listed': seq<Gap>,
                         after: seq<Action>, end: System, sink: Hash, pp: Hash, listed: seq<Gap>)
    requires Fresh(sys) && Run(sys, before, mid, true)
    requires (exists a :: a in before && a.Connect?) && LastNotified(false, sys.worker.last, before) == None
    requires Enabled(mid, Connect(sink', pp', listed')) && Run(Perform(mid, Connect(sink', pp', listed')), after, end, true)
    requires (forall a :: a in after ==> !a.Connect?) && Lists(listed, end.worker.gaps)
    ensures var w := Worker(false, {}, 0, end.worker.gaps, end.worker.headers, None, end.worker.cursor, false);
            var spawned := OnConnected(w, sink, pp, listed).spawned;
            && (forall g :: g in listed ==> g.to in mid.worker.gaps)
            && ((forall a :: a in after ==> !a.Notify?) ==>
                  spawned == listed + (match mid.worker.cursor
                    case None => [Gap(pp, sink)]
                    case Some(b) => if b == sink then [] else [Gap(b, sink)]))
            && ((exists a :: a in after && a.Notify?) ==>
                  && end.worker.cursor.Some? && Notify(end.worker.cursor.value) in after
                  && spawned == listed + (if end.worker.cursor == Some(sink) then [] else [Gap(end.worker.cursor.value, sink)]))
  {
    RunKeeps(sys, before, mid);
    ReconnectCovers(sys, before, mid, true, sink', pp', listed');
    var mid' := Perform(mid, Connect(sink', pp', listed'));
    assert mid'.fillers == mid.fillers + Spawn([]) == mid.fillers;
    assert mid' == mid;
    NoNewGap(mid, after, end);
    RunRemembers(mid, after, end, true);
    LatestNotified(mid.worker.cursor, after);
    RestartSpawns(end.worker, sink, pp, listed);
  }

  lemma RestartSpawns(w: Worker, sink: Hash, pp: Hash, listed: seq<Gap>)
    ensures OnConnected(Worker(false, {}, 0, w.gaps, w.headers, None, w.cursor, false), sink, pp, listed).spawned
         == listed + (match w.cursor
              case None => [Gap(pp, sink)]
              case Some(b) => if b == sink then [] else [Gap(b, sink)])
  {
    assert listed + [] == listed;
  }

  // ----- what a disconnect or shutdown interrupts -----

  /** Targets of the fillers from `base` on whose terminal message is unhandled. */
  function Unsettled(fs: seq<Filler>, base: nat): set<Hash>
  {
    set i | base <= i < |fs| && fs[i].status != Closed :: fs[i].gap.to
  }

  /** The handles are those of the unsettled fillers started since the last interruption. */
  ghost predicate Interruptible(sys: System, base: nat)
  {
    && base <= |sys.fillers| && sys.worker.handles == Unsettled(sys.fillers, base)
    && (!sys.worker.connected ==> sys.fillers == [])
  }

  function NextBase(sys: System, base: nat, a: Action): nat
  {
    if a.Disconnect? || a.Shutdown? then |sys.fillers| else base
  }

  lemma UnsettledSpawn(fs: seq<Filler>, base: nat, gaps: seq<Gap>)
    requires base <= |fs|
    ensures Unsettled(fs + Spawn(gaps), base) == Unsettled(fs, base) + Targets(gaps)
  {
    var all := fs + Spawn(gaps);
    forall t | t in Targets(gaps) ensures t in Unsettled(all, base) {
      var g :| g in gaps && g.to == t;
      var k :| 0 <= k < |gaps| && gaps[k] == g;
      assert all[|fs| + k].gap.to == t;
    }
    forall t | t in Unsettled(fs, base) ensures t in Unsettled(all, base) {
      var i :| base <= i < |fs| && fs[i].status != Closed && fs[i].gap.to == t;
      assert all[i] == fs[i];
    }
  }

  lemma UnsettledSame(fs: seq<Filler>, base: nat, i: nat, f: Filler)
    requires i < |fs| && f.gap == fs[i].gap && f.status != Closed && fs[i].status != Closed
    ensures Unsettled(fs[i := f], base) == Unsettled(fs, base)
  {
    var fs' := fs[i := f];
    assert forall j :: 0 <= j < |fs| ==>
      fs'[j].gap == fs[j].gap && (fs'[j].status != Closed <==> fs[j].status != Closed);
  }

  lemma UnsettledClosed(fs: seq<Filler>, base: nat, i: nat, f: Filler)
    requires i < |fs| && f.gap == fs[i].gap && f.status == Closed && DistinctTargets(fs)
    ensures Unsettled(fs[i := f], base) == Unsettled(fs, base) - {f.gap.to}
  {
    var fs' := fs[i := f];
    forall t | t in Unsettled(fs, base) - {f.gap.to} ensures t in Unsettled(fs', base) {
      var j :| base <= j < |fs| && fs[j].status != Closed && fs[j].gap.to == t;
      assert fs'[j] == fs[j];
    }
    forall t | t in Unsettled(fs', base) ensures t in Unsettled(fs, base) && t != f.gap.to {
      var j :| base <= j < |fs'| && fs'[j].status != Closed && fs'[j].gap.to == t;
      assert j != i && fs'[j] == fs[j];
    }
  }

  lemma UnsettledHeard(fs: seq<Filler>, base: nat, m: Message)
    requires m.sender < |fs| && DistinctTargets(fs) && fs[m.sender].status != Closed
    ensures Unsettled(Heard(fs, m), base)
         == Unsettled(fs, base) - (if Terminal(m.p) then {fs[m.sender].gap.to} else {})
  {
    var f := Heard(fs, m)[m.sender];
    if Terminal(m.p) {
      UnsettledClosed(fs, base, m.sender, f);
    } else {
      UnsettledSame(fs, base, m.sender, f);
    }
  }

  lemma HandlesAfter(w: Worker, p: Progress)
    ensures OnProgress(w, p).handles == w.handles - (if Terminal(p) then {p.target} else {})
    ensures OnProgress(w, p).connected == w.connected
  {
  }

  lemma HandleInterruptible(sys: System, base: nat)
    requires Channels(sys) && DistinctTargets(sys.fillers) && Interruptible(sys, base) && sys.channel != []
    ensures Interruptible(Perform(sys, Handle), base)
  {
    HeadMessage(sys);
    UnsettledHeard(sys.fillers, base, sys.channel[0]);
    HandlesAfter(sys.worker, sys.channel[0].p);
  }

  lemma StepInterruptible(sys: System, base: nat, a: Action)
    requires GapsKept(sys) && Interruptible(sys, base) && Enabled(sys, a)
    ensures Interruptible(Perform(sys, a), NextBase(sys, base, a))
  {
    match a {
      case Connect(sink, pp, listed) =>
        UnsettledSpawn(sys.fillers, base, OnConnected(sys.worker, sink, pp, listed).spawned);
      case Handle => HandleInterruptible(sys, base);
      case Send(i, p) => UnsettledSame(sys.fillers, base, i, Perform(sys, a).fillers[i]);
      case Die(i) => UnsettledSame(sys.fillers, base, i, Perform(sys, a).fillers[i]);
      case _ =>
    }
  }

  /** How many fillers had been started at the last disconnect or shutdown. */
  ghost function StartedBefore(sys: System, base: nat, actions: seq<Action>, end: System): nat
    requires Run(sys, actions, end, true)
    decreases |actions|
  {
    if actions == [] then base
    else StartedBefore(Perform(sys, actions[0]), NextBase(sys, base, actions[0]), actions[1..], end)
  }

  lemma {:induction false} RunInterruptible(sys: System, base: nat, actions: seq<Action>, end: System)
    requires GapsKept(sys) && Interruptible(sys, base) && Run(sys, actions, end, true)
    ensures Interruptible(end, StartedBefore(sys, base, actions, end))
    decreases |actions|
  {
    if actions != [] {
      StepKeeps(sys, actions[0]);
      StepInterruptible(sys, base, actions[0]);
      RunInterruptible(Perform(sys, actions[0]), NextBase(sys, base, actions[0]), actions[1..], end);
    }
  }

  /** Over every run with distinct targets, a disconnect or shutdown interrupts
      exactly the unsettled fillers started since the one before it. */
  lemma InterruptsExactly(sys: System, actions: seq<Action>, end: System)
    requires Fresh(sys) && Run(sys, actions, end, true)
    ensures var base := StartedBefore(sys, 0, actions, end);
            && base <= |end.fillers|
            && forall t :: t in end.worker.handles <==>
                 exists i :: base <= i < |end.fillers| && end.fillers[i].status != Closed && end.fillers[i].gap.to == t
  {
    RunInterruptible(sys, 0, actions, end);
  }
}
