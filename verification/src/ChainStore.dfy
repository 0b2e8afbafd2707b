/** The persistent maps that follow the virtual chain: accepting block to tracked
    transactions, transaction to acceptance header and deferred writes, and the
    pending sender requests.  The theorems speak of every run of chain changes,
    block sightings, sender resolutions and prunings. */
module ChainStore {
  import opened Bytes
  import opened AcceptanceLog

  datatype PendingKey = PendingKey(daa: nat, tx: TxId)

  datatype AcceptedTxs = AcceptedTxs(block: Hash, txs: seq<TxId>)

  /** A virtual chain change: a notification or a sync response. */
  datatype Vcc = Vcc(removed: seq<Hash>, added: seq<Hash>, accepted: seq<AcceptedTxs>)

  datatype Store = Store(acc: View, tracked: map<Hash, seq<TxId>>, pending: set<PendingKey>)

  datatype BlockInfo = BlockInfo(daa: nat, work: nat)

  type Cache = map<Hash, BlockInfo>

  // ----- what one chain change does to the store -----

  function SetHeaders(acc: View, txs: seq<TxId>, h: Header): (r: View)
  {
    map t | t in acc :: if t in txs then acc[t].(header := h) else acc[t]
  }

  function Unresolved(acc: View, txs: seq<TxId>, daa: nat): set<PendingKey>
  {
    set t | t in txs && t in acc && acc[t].entries != [] :: PendingKey(daa, t)
  }

  /** The transactions of a block that are indexed, in the block's order. */
  function Known(acc: View, txs: seq<TxId>): (r: seq<TxId>)
    ensures forall t :: t in r <==> t in txs && t in acc
  {
    if txs == [] then []
    else if txs[0] in acc then [txs[0]] + Known(acc, txs[1..])
    else Known(acc, txs[1..])
  }

  function DaaOf(cache: Cache, b: Hash): nat
  {
    if b in cache then cache[b].daa else 0
  }

  /** A block leaves the chain. */
  function Untrack(s: Store, b: Hash, daa: nat): Store
  {
    if b !in s.tracked then s
    else
      Store(
        SetHeaders(s.acc, s.tracked[b], Header(b, daa)),
        s.tracked - {b},
        s.pending - Unresolved(s.acc, s.tracked[b], daa))
  }

  /** A block joins the chain and accepts `txs`. */
  function Track(s: Store, b: Hash, daa: nat, txs: seq<TxId>): Store
  {
    Store(
      SetHeaders(s.acc, txs, Header(b, daa)),
      s.tracked[b := Known(s.acc, txs)],
      s.pending + Unresolved(s.acc, txs, daa))
  }

  function UntrackAll(s: Store, cache: Cache, bs: seq<Hash>): Store
    decreases |bs|
  {
    if bs == [] then s
    else UntrackAll(Untrack(s, bs[0], DaaOf(cache, bs[0])), cache, bs[1..])
  }

  function TrackAll(s: Store, cache: Cache, accepted: seq<AcceptedTxs>): Store
    decreases |accepted|
  {
    if accepted == [] then s
    else
      var a := accepted[0];
      TrackAll(Track(s, a.block, DaaOf(cache, a.block), a.txs), cache, accepted[1..])
  }

  function Apply(s: Store, cache: Cache, v: Vcc): Store
  {
    TrackAll(UntrackAll(s, cache, v.removed), cache, v.accepted)
  }

  /** The sender requests sent while a block is added, in order. */
  function Requests(acc: View, txs: seq<TxId>, daa: nat): (r: seq<PendingKey>)
    ensures forall k :: k in r <==> k in Unresolved(acc, txs, daa)
  {
    if txs == [] then []
    else
      (if txs[0] in acc && acc[txs[0]].entries != [] then [PendingKey(daa, txs[0])] else [])
      + Requests(acc, txs[1..], daa)
  }

  function RequestsAll(acc: View, cache: Cache, accepted: seq<AcceptedTxs>): seq<PendingKey>
    decreases |accepted|
  {
    if accepted == [] then []
    else
      var a := accepted[0];
      Requests(acc, a.txs, DaaOf(cache, a.block)) + RequestsAll(acc, cache, accepted[1..])
  }

  ghost predicate SameEntries(a: View, b: View)
  {
    a.Keys == b.Keys && forall t :: t in a ==> a[t].entries == b[t].entries
  }

  lemma {:induction false} SameRequests(a: View, b: View, txs: seq<TxId>, daa: nat)
    requires SameEntries(a, b)
    ensures Requests(a, txs, daa) == Requests(b, txs, daa)
  {
    if txs != [] { SameRequests(a, b, txs[1..], daa); }
  }

  lemma {:induction false} SameRequestsAll(a: View, b: View, cache: Cache, accepted: seq<AcceptedTxs>)
    requires SameEntries(a, b)
    ensures RequestsAll(a, cache, accepted) == RequestsAll(b, cache, accepted)
    decreases |accepted|
  {
    if accepted != [] {
      SameRequests(a, b, accepted[0].txs, DaaOf(cache, accepted[0].block));
      SameRequestsAll(a, b, cache, accepted[1..]);
    }
  }

  lemma {:induction false} UntrackAllEntries(s: Store, cache: Cache, bs: seq<Hash>)
    ensures SameEntries(UntrackAll(s, cache, bs).acc, s.acc)
    ensures UntrackAll(s, cache, bs).pending <= s.pending
    decreases |bs|
  {
    if bs != [] { UntrackAllEntries(Untrack(s, bs[0], DaaOf(cache, bs[0])), cache, bs[1..]); }
  }

  lemma {:induction false} TrackAllPending(s: Store, cache: Cache, acc: View, accepted: seq<AcceptedTxs>)
    requires SameEntries(s.acc, acc)
    ensures SameEntries(TrackAll(s, cache, accepted).acc, acc)
    ensures forall k :: k in TrackAll(s, cache, accepted).pending <==>
              k in s.pending || k in RequestsAll(acc, cache, accepted)
    decreases |accepted|
  {
    if accepted != [] {
      var a := accepted[0];
      SameRequests(s.acc, acc, a.txs, DaaOf(cache, a.block));
      TrackAllPending(Track(s, a.block, DaaOf(cache, a.block), a.txs), cache, acc, accepted[1..]);
    }
  }

  /** A chain change touches no deferred entry, and asks for a sender exactly when
      it makes the request pending. */
  lemma RequestsBecomePending(s: Store, cache: Cache, v: Vcc)
    ensures var s', rs := Apply(s, cache, v), RequestsAll(s.acc, cache, v.accepted);
            && SameEntries(s'.acc, s.acc)
            && (forall k :: k in rs ==> k in s'.pending)
            && (forall k :: k in s'.pending && k !in s.pending ==> k in rs)
  {
    UntrackAllEntries(s, cache, v.removed);
    TrackAllPending(UntrackAll(s, cache, v.removed), cache, s.acc, v.accepted);
  }

  predicate Removable(s: Store, cache: Cache, bs: seq<Hash>)
  {
    forall b :: b in bs && b in s.tracked ==> b in cache && forall t :: t in s.tracked[b] ==> t in s.acc
  }

  /** No lookup that the handlers unwrap comes back empty. */
  predicate CanApply(s: Store, cache: Cache, v: Vcc)
  {
    && Removable(s, cache, v.removed)
    && (forall a :: a in v.accepted ==> a.block in cache)
    && v.added != [] && v.added[|v.added| - 1] in cache
  }

  // ----- the chain the changes come from -----

  /** What the network fixes for good: a block's score and work, and the
      transactions it accepts when it is on the chain. */
  datatype World = World(daa: Hash -> nat, work: Hash -> nat, accepts: Hash -> set<TxId>)

  function Elements(s: seq<Hash>): (r: set<Hash>)
    ensures forall b :: b in r <==> b in s
  {
    set b | b in s
  }

  function Blocks(accepted: seq<AcceptedTxs>): (r: set<Hash>)
  {
    set a | a in accepted :: a.block
  }

  ghost predicate CacheAgrees(w: World, cache: Cache)
  {
    forall b :: b in cache ==> cache[b] == BlockInfo(w.daa(b), w.work(b))
  }

  /** No transaction is accepted by two blocks of one chain. */
  ghost predicate OneAcceptor(w: World, chain: set<Hash>)
  {
    forall b, b', t ::
      b in chain && b' in chain && t in w.accepts(b) && t in w.accepts(b') ==> b == b'
  }

  function NextChain(chain: set<Hash>, v: Vcc): set<Hash>
  {
    (chain - Elements(v.removed)) + Elements(v.added)
  }

  ghost predicate TruthfulLists(w: World, accepted: seq<AcceptedTxs>)
  {
    forall a, t :: a in accepted ==> (t in a.txs <==> t in w.accepts(a.block))
  }

  /** `v` was computed from `chain`: it removes blocks of it, and its accepted
      lists name exactly its added blocks with what they accept. */
  ghost predicate ValidChange(w: World, chain: set<Hash>, v: Vcc)
  {
    && Elements(v.removed) <= chain
    && Blocks(v.accepted) == Elements(v.added)
    && TruthfulLists(w, v.accepted)
    && OneAcceptor(w, chain)
    && OneAcceptor(w, NextChain(chain, v))
  }

  // ----- the invariants -----

  /** Tracked transactions are indexed and really accepted by their block. */
  ghost predicate Sane(w: World, s: Store)
  {
    forall b, t :: b in s.tracked && t in s.tracked[b] ==> t in s.acc && t in w.accepts(b)
  }

  lemma SaneAt(w: World, s: Store, b: Hash, t: TxId)
    requires Sane(w, s) && b in s.tracked && t in s.tracked[b]
    ensures t in s.acc && t in w.accepts(b)
  {
  }

  /** On `chain`, every tracked transaction carries its true acceptance header. */
  ghost predicate Agreed(w: World, s: Store, chain: set<Hash>)
  {
    forall b, t :: b in chain && b in s.tracked && t in s.tracked[b] ==>
      t in s.acc && s.acc[t].header == Header(b, w.daa(b))
  }

  predicate HasEntries(s: Store, t: TxId)
  {
    t in s.acc && s.acc[t].entries != []
  }

  /** On `chain`, every tracked transaction with unresolved entries is pending
      under its accepting block's score. */
  ghost predicate Covered(w: World, s: Store, chain: set<Hash>)
  {
    forall b, t :: b in chain && b in s.tracked && t in s.tracked[b] && HasEntries(s, t) ==>
      PendingKey(w.daa(b), t) in s.pending
  }

  /** Removing a block of the chain disturbs no other block of that chain, even
      when the store is not the one the removal was computed for. */
  lemma UntrackKeeps(w: World, s: Store, chain: set<Hash>, b: Hash)
    requires Sane(w, s) && OneAcceptor(w, chain) && b in chain
    ensures var s' := Untrack(s, b, w.daa(b));
            && Sane(w, s') && s'.acc.Keys == s.acc.Keys && s'.tracked == s.tracked - {b}
            && (Agreed(w, s, chain) ==> Agreed(w, s', chain))
            && (Covered(w, s, chain) ==> Covered(w, s', chain))
  {
    var s' := Untrack(s, b, w.daa(b));
    if b in s.tracked {
      forall b', t | b' in chain && b' in s'.tracked && t in s'.tracked[b']
        ensures b' in s.tracked && t in s.tracked[b'] && t !in s.tracked[b]
        ensures t in s.acc && s'.acc[t] == s.acc[t]
        ensures PendingKey(w.daa(b'), t) in s.pending ==> PendingKey(w.daa(b'), t) in s'.pending
      {
        assert s.tracked[b'] == s'.tracked[b'];
        SaneAt(w, s, b', t);
        if t in s.tracked[b] { SaneAt(w, s, b, t); }
      }
      if Covered(w, s, chain) {
        forall b', t | b' in chain && b' in s'.tracked && t in s'.tracked[b'] && HasEntries(s', t)
          ensures PendingKey(w.daa(b'), t) in s'.pending
        {
          assert HasEntries(s, t);
        }
      }
    }
  }

  /** Adding a block makes it right and disturbs no other block of the chain it joins. */
  lemma TrackKeeps(w: World, s: Store, chain: set<Hash>, b: Hash, txs: seq<TxId>)
    requires Sane(w, s) && OneAcceptor(w, chain + {b})
    requires forall t :: t in txs ==> t in w.accepts(b)
    ensures var s' := Track(s, b, w.daa(b), txs);
            && Sane(w, s') && s'.acc.Keys == s.acc.Keys
            && (Agreed(w, s, chain) ==> Agreed(w, s', chain + {b}))
            && (Covered(w, s, chain) ==> Covered(w, s', chain + {b}))
  {
    var s' := Track(s, b, w.daa(b), txs);
    forall b', t | b' in chain && b' != b && b' in s'.tracked && t in s'.tracked[b']
      ensures b' in s.tracked && t in s.tracked[b'] && t !in txs
      ensures t in s.acc && s'.acc[t] == s.acc[t]
    {
      assert s.tracked[b'] == s'.tracked[b'];
      SaneAt(w, s, b', t);
      assert t in txs ==> t in w.accepts(b);
    }
    if Covered(w, s, chain) {
      forall b', t | b' in chain + {b} && b' in s'.tracked && t in s'.tracked[b'] && HasEntries(s', t)
        ensures PendingKey(w.daa(b'), t) in s'.pending
      {
        assert HasEntries(s, t);
      }
    }
  }

  lemma {:induction false} UntrackAllKeeps(w: World, s: Store, cache: Cache, chain: set<Hash>, bs: seq<Hash>)
    requires Sane(w, s) && OneAcceptor(w, chain) && Elements(bs) <= chain && CacheAgrees(w, cache)
    requires forall b :: b in bs && b in s.tracked ==> b in cache
    ensures var s' := UntrackAll(s, cache, bs);
            && Sane(w, s') && s'.acc.Keys == s.acc.Keys && s'.tracked == s.tracked - Elements(bs)
            && (Agreed(w, s, chain) ==> Agreed(w, s', chain))
            && (Covered(w, s, chain) ==> Covered(w, s', chain))
    decreases |bs|
  {
    if bs == [] {
      assert s.tracked - Elements(bs) == s.tracked;
    } else {
      var b := bs[0];
      assert b in Elements(bs);
      var s1 := Untrack(s, b, DaaOf(cache, b));
      UntrackKeeps(w, s, chain, b);
      assert s1 == Untrack(s, b, w.daa(b));
      assert forall x :: x in bs[1..] ==> x in bs;
      UntrackAllKeeps(w, s1, cache, chain, bs[1..]);
      assert Elements(bs) == {b} + Elements(bs[1..]);
      assert (s.tracked - {b}) - Elements(bs[1..]) == s.tracked - Elements(bs);
    }
  }

  lemma OneAcceptorSubset(w: World, small: set<Hash>, big: set<Hash>)
    requires small <= big && OneAcceptor(w, big)
    ensures OneAcceptor(w, small)
  {
  }

  /** The lists of the added blocks afterwards: complete with respect to `keys`. */
  ghost predicate Complete(w: World, s: Store, b: Hash, keys: set<TxId>)
  {
    b in s.tracked && forall t :: t in w.accepts(b) && t in keys ==> t in s.tracked[b]
  }

  lemma TrackShape(w: World, s: Store, b: Hash, daa: nat, txs: seq<TxId>)
    requires Sane(w, s) && forall t :: t in txs <==> t in w.accepts(b)
    ensures var s' := Track(s, b, daa, txs);
            && Sane(w, s') && s'.acc.Keys == s.acc.Keys && s'.tracked.Keys == s.tracked.Keys + {b}
            && (forall c :: c in s.tracked && c != b ==> s'.tracked[c] == s.tracked[c])
            && Complete(w, s', b, s.acc.Keys)
  {
  }

  lemma {:induction false} TrackAllShape(w: World, s: Store, cache: Cache, accepted: seq<AcceptedTxs>)
    requires Sane(w, s) && TruthfulLists(w, accepted)
    ensures var s' := TrackAll(s, cache, accepted);
            && Sane(w, s') && s'.acc.Keys == s.acc.Keys
            && s'.tracked.Keys == s.tracked.Keys + Blocks(accepted)
            && (forall b :: b in s.tracked && b !in Blocks(accepted) ==> s'.tracked[b] == s.tracked[b])
            && (forall b :: b in Blocks(accepted) ==> Complete(w, s', b, s.acc.Keys))
    decreases |accepted|
  {
    if accepted != [] {
      var a, rest := accepted[0], accepted[1..];
      var s1 := Track(s, a.block, DaaOf(cache, a.block), a.txs);
      assert a in accepted && forall x :: x in rest ==> x in accepted;
      assert Blocks(accepted) == {a.block} + Blocks(rest);
      TrackShape(w, s, a.block, DaaOf(cache, a.block), a.txs);
      TrackAllShape(w, s1, cache, rest);
    }
  }

  lemma {:induction false} TrackAllKeeps(w: World, s: Store, cache: Cache, chain: set<Hash>, accepted: seq<AcceptedTxs>)
    requires Sane(w, s) && CacheAgrees(w, cache) && OneAcceptor(w, chain + Blocks(accepted))
    requires Blocks(accepted) <= cache.Keys && TruthfulLists(w, accepted)
    ensures var s' := TrackAll(s, cache, accepted);
            && (Agreed(w, s, chain) ==> Agreed(w, s', chain + Blocks(accepted)))
            && (Covered(w, s, chain) ==> Covered(w, s', chain + Blocks(accepted)))
    decreases |accepted|
  {
    if accepted == [] {
      assert chain + Blocks(accepted) == chain;
    } else {
      var a, rest := accepted[0], accepted[1..];
      assert a in accepted && forall x :: x in rest ==> x in accepted;
      assert Blocks(accepted) == {a.block} + Blocks(rest);
      assert chain + Blocks(accepted) == (chain + {a.block}) + Blocks(rest);
      OneAcceptorSubset(w, chain + {a.block}, chain + Blocks(accepted));
      TrackKeeps(w, s, chain, a.block, a.txs);
      TrackAllKeeps(w, Track(s, a.block, w.daa(a.block), a.txs), cache, chain + {a.block}, rest);
    }
  }

  /** What one chain change leaves tracked: removed blocks are untracked, added
      ones complete, and blocks it does not mention keep their lists. */
  lemma ApplyShape(w: World, s: Store, cache: Cache, chain: set<Hash>, v: Vcc)
    requires Sane(w, s) && CacheAgrees(w, cache) && ValidChange(w, chain, v) && CanApply(s, cache, v)
    ensures var s' := Apply(s, cache, v);
            && Sane(w, s') && s'.acc.Keys == s.acc.Keys
            && s'.tracked.Keys == (s.tracked.Keys - Elements(v.removed)) + Elements(v.added)
            && (forall b :: b in s.tracked && b !in v.removed && b !in v.added ==>
                  s'.tracked[b] == s.tracked[b])
            && (forall b :: b in v.added ==> Complete(w, s', b, s.acc.Keys))
  {
    UntrackAllKeeps(w, s, cache, chain, v.removed);
    TrackAllShape(w, UntrackAll(s, cache, v.removed), cache, v.accepted);
  }

  /** One chain change applied to any sane store: the old chain's right headers and
      coverage stay right on the new chain, and the added blocks become right. */
  lemma ApplyKeeps(w: World, s: Store, cache: Cache, chain: set<Hash>, v: Vcc)
    requires Sane(w, s) && CacheAgrees(w, cache) && ValidChange(w, chain, v) && CanApply(s, cache, v)
    ensures Agreed(w, s, chain) ==> Agreed(w, Apply(s, cache, v), NextChain(chain, v))
    ensures Covered(w, s, chain) ==> Covered(w, Apply(s, cache, v), NextChain(chain, v))
  {
    UntrackAllKeeps(w, s, cache, chain, v.removed);
    var s1 := UntrackAll(s, cache, v.removed);
    var base := chain - Elements(v.removed);
    assert NextChain(chain, v) == base + Blocks(v.accepted);
    SmallerChain(w, s1, base, chain);
    AcceptedCached(cache, v.accepted);
    TrackAllKeeps(w, s1, cache, base, v.accepted);
  }

  lemma SmallerChain(w: World, s: Store, small: set<Hash>, big: set<Hash>)
    requires small <= big
    ensures Agreed(w, s, big) ==> Agreed(w, s, small)
    ensures Covered(w, s, big) ==> Covered(w, s, small)
  {
  }

  lemma AcceptedCached(cache: Cache, accepted: seq<AcceptedTxs>)
    requires forall a :: a in accepted ==> a.block in cache
    ensures Blocks(accepted) <= cache.Keys
  {
  }

  // ----- runs -----

  datatype Event =
    | ChainChange(v: Vcc, cache: Cache)
    | Sighting(tx: TxId, entries: seq<Entry>)
    | Resolution(tx: TxId, daa: nat)
    | Pruning(gone: set<Hash>)

  function Step(s: Store, e: Event): Store
  {
    match e
    case ChainChange(v, cache) => Apply(s, cache, v)
    case Sighting(t, es) => s.(acc := Inserted(s.acc, t, es))
    case Resolution(t, daa) => s.(acc := Resolved(s.acc, t), pending := s.pending - {PendingKey(daa, t)})
    case Pruning(gone) => s.(tracked := s.tracked - gone)
  }

  function ChainStep(chain: set<Hash>, e: Event): set<Hash>
  {
    if e.ChainChange? then NextChain(chain, e.v) else chain
  }

  function Run(s: Store, es: seq<Event>): Store
    decreases |es|
  {
    if es == [] then s else Run(Step(s, es[0]), es[1..])
  }

  function ChainRun(chain: set<Hash>, es: seq<Event>): set<Hash>
    decreases |es|
  {
    if es == [] then chain else ChainRun(ChainStep(chain, es[0]), es[1..])
  }

  /** A chain change follows from the chain reached so far, the block cache tells
      the truth, and the blocks a handler looks up are still cached. */
  ghost predicate Legal(w: World, s: Store, chain: set<Hash>, e: Event)
  {
    e.ChainChange? ==>
      && CacheAgrees(w, e.cache)
      && ValidChange(w, chain, e.v)
      && e.v.added != [] && Elements(e.v.added) <= e.cache.Keys
      && (forall b :: b in e.v.removed && b in s.tracked ==> b in e.cache)
  }

  ghost predicate LegalRun(w: World, s: Store, chain: set<Hash>, es: seq<Event>)
    decreases |es|
  {
    es == [] || (Legal(w, s, chain, es[0]) && LegalRun(w, Step(s, es[0]), ChainStep(chain, es[0]), es[1..]))
  }

  lemma LegalCanApply(w: World, s: Store, chain: set<Hash>, e: Event)
    requires Sane(w, s) && Legal(w, s, chain, e) && e.ChainChange?
    ensures CanApply(s, e.cache, e.v)
  {
    forall a | a in e.v.accepted ensures a.block in e.cache {
      assert a.block in Blocks(e.v.accepted);
    }
  }

  /** Every step keeps sanity and header agreement on the chain it leads to. */
  lemma StepKeeps(w: World, s: Store, chain: set<Hash>, e: Event)
    requires Sane(w, s) && Agreed(w, s, chain) && Legal(w, s, chain, e)
    ensures Sane(w, Step(s, e)) && Agreed(w, Step(s, e), ChainStep(chain, e))
    ensures s.acc.Keys <= Step(s, e).acc.Keys
    ensures s.tracked.Keys <= chain ==> Step(s, e).tracked.Keys <= ChainStep(chain, e)
  {
    if e.ChainChange? {
      LegalCanApply(w, s, chain, e);
      ApplyShape(w, s, e.cache, chain, e.v);
      ApplyKeeps(w, s, e.cache, chain, e.v);
    }
  }

  lemma {:induction false} RunKeeps(w: World, s: Store, chain: set<Hash>, es: seq<Event>)
    requires Sane(w, s) && Agreed(w, s, chain) && LegalRun(w, s, chain, es)
    ensures Sane(w, Run(s, es)) && Agreed(w, Run(s, es), ChainRun(chain, es))
    ensures s.acc.Keys <= Run(s, es).acc.Keys
    ensures s.tracked.Keys <= chain ==> Run(s, es).tracked.Keys <= ChainRun(chain, es)
    decreases |es|
  {
    if es != [] {
      StepKeeps(w, s, chain, es[0]);
      RunKeeps(w, Step(s, es[0]), ChainStep(chain, es[0]), es[1..]);
    }
  }

  /** Acceptance agreement.  In every run from an empty store in which each chain
      change is applied to the chain it was computed from, with sightings,
      resolutions and prunings in between: only chain blocks are tracked, their
      transaction lists are pairwise disjoint, and every tracked transaction is
      indexed with its block and that block's score as its header. */
  lemma AcceptanceAgreement(w: World, chain: set<Hash>, es: seq<Event>)
    requires LegalRun(w, Store(map[], map[], {}), chain, es)
    ensures var s := Run(Store(map[], map[], {}), es);
            && s.tracked.Keys <= ChainRun(chain, es)
            && (forall b, t :: b in s.tracked && t in s.tracked[b] ==>
                  t in s.acc && s.acc[t].header == Header(b, w.daa(b)))
            && (forall b, b', t :: b in s.tracked && b' in s.tracked && t in s.tracked[b] && t in s.tracked[b'] ==>
                  b == b')
  {
    var s := Run(Store(map[], map[], {}), es);
    RunKeeps(w, Store(map[], map[], {}), chain, es);
    forall b, b', t | b in s.tracked && b' in s.tracked && t in s.tracked[b] && t in s.tracked[b']
      ensures b == b'
    {
      assert s.acc[t].header == Header(b, w.daa(b)) == Header(b', w.daa(b'));
    }
  }

  // ----- what a reorg leaves behind -----

  lemma {:induction false} UntrackAllHeader(w: World, s: Store, cache: Cache, chain: set<Hash>, bs: seq<Hash>, b: Hash, t: TxId)
    requires Sane(w, s) && OneAcceptor(w, chain) && Elements(bs) <= chain && CacheAgrees(w, cache)
    requires forall c :: c in bs && c in s.tracked ==> c in cache
    requires b in chain && t in s.acc && t in w.accepts(b)
    ensures t in UntrackAll(s, cache, bs).acc
    ensures var h := UntrackAll(s, cache, bs).acc[t].header;
            if b in bs && b in s.tracked && t in s.tracked[b] then h == Header(b, w.daa(b)) else h == s.acc[t].header
    decreases |bs|
  {
    if bs != [] {
      var c := bs[0];
      assert c in Elements(bs) && forall x :: x in bs[1..] ==> x in bs;
      var s1 := Untrack(s, c, DaaOf(cache, c));
      UntrackKeeps(w, s, chain, c);
      assert s1 == Untrack(s, c, w.daa(c));
      if c != b && c in s.tracked && t in s.tracked[c] { SaneAt(w, s, c, t); }
      UntrackAllHeader(w, s1, cache, chain, bs[1..], b, t);
    }
  }

  lemma {:induction false} TrackAllHeader(s: Store, cache: Cache, accepted: seq<AcceptedTxs>, t: TxId)
    requires t in s.acc && forall a :: a in accepted ==> t !in a.txs
    ensures t in TrackAll(s, cache, accepted).acc && TrackAll(s, cache, accepted).acc[t] == s.acc[t]
    decreases |accepted|
  {
    if accepted != [] {
      var a := accepted[0];
      assert a in accepted && forall x :: x in accepted[1..] ==> x in accepted;
      TrackAllHeader(Track(s, a.block, DaaOf(cache, a.block), a.txs), cache, accepted[1..], t);
    }
  }

  /** A transaction whose block a change removes, and that no added block accepts,
      is left with a header that still names the removed block, and untracked. */
  lemma RemovedKeepsHeader(w: World, s: Store, chain: set<Hash>, e: Event, b: Hash, t: TxId)
    requires Sane(w, s) && s.tracked.Keys <= chain && e.ChainChange? && Legal(w, s, chain, e)
    requires b in e.v.removed && b in s.tracked && t in s.tracked[b]
    requires forall c :: c in e.v.added ==> t !in w.accepts(c)
    ensures var s' := Step(s, e);
            && t in s'.acc && s'.acc[t].header == Header(b, w.daa(b))
            && forall c :: c in s'.tracked ==> t !in s'.tracked[c]
  {
    var s' := Step(s, e);
    LegalCanApply(w, s, chain, e);
    SaneAt(w, s, b, t);
    assert b in Elements(e.v.removed);
    forall a | a in e.v.accepted ensures t !in a.txs {
      assert a.block in Blocks(e.v.accepted);
    }
    UntrackAllHeader(w, s, e.cache, chain, e.v.removed, b, t);
    TrackAllHeader(UntrackAll(s, e.cache, e.v.removed), e.cache, e.v.accepted, t);
    ApplyShape(w, s, e.cache, chain, e.v);
    forall c | c in s'.tracked ensures t !in s'.tracked[c] {
      if t in s'.tracked[c] { SaneAt(w, s', c, t); }
    }
  }

  // ----- pending coverage -----

  /** A sighting that cannot leave an accepted transaction with entries nobody
      asks the sender for. */
  ghost predicate SafeSighting(w: World, s: Store, chain: set<Hash>, t: TxId, es: seq<Entry>)
  {
    es == [] ||
    forall b :: b in chain && b in s.tracked && t in s.tracked[b] ==> PendingKey(w.daa(b), t) in s.pending
  }

  /** Exactly the unsafe sightings break pending coverage. */
  lemma SightingCoverage(w: World, s: Store, chain: set<Hash>, t: TxId, es: seq<Entry>)
    requires Sane(w, s) && Covered(w, s, chain)
    ensures Covered(w, Step(s, Sighting(t, es)), chain) <==> SafeSighting(w, s, chain, t, es)
  {
    var s' := Step(s, Sighting(t, es));
    if es != [] { assert HasEntries(s', t); }
    if SafeSighting(w, s, chain, t, es) {
      forall b, u | b in chain && b in s'.tracked && u in s'.tracked[b] && HasEntries(s', u)
        ensures PendingKey(w.daa(b), u) in s'.pending
      {
        if u != t || es == [] { assert HasEntries(s, u); }
      }
    }
  }

  function Adding(b: Hash, txs: seq<TxId>, cache: Cache): Event
  {
    ChainChange(Vcc([], [b], [AcceptedTxs(b, txs)]), cache)
  }

  lemma AddingStep(s: Store, b: Hash, txs: seq<TxId>, cache: Cache)
    ensures Step(s, Adding(b, txs, cache)) == Track(s, b, DaaOf(cache, b), txs)
    ensures Elements([b]) == {b} == Blocks([AcceptedTxs(b, txs)])
  {
    var accepted := [AcceptedTxs(b, txs)];
    assert accepted[1..] == [];
    assert UntrackAll(s, cache, []) == s;
    var s1 := Track(s, b, DaaOf(cache, b), txs);
    assert TrackAll(s, cache, accepted) == TrackAll(s1, cache, []) == s1;
  }

  /** One event of a run, then the rest. */
  lemma RunCons(w: World, s: Store, chain: set<Hash>, e: Event, rest: seq<Event>)
    ensures LegalRun(w, s, chain, [e] + rest) <==>
              Legal(w, s, chain, e) && LegalRun(w, Step(s, e), ChainStep(chain, e), rest)
    ensures Run(s, [e] + rest) == Run(Step(s, e), rest)
    ensures ChainRun(chain, [e] + rest) == ChainRun(ChainStep(chain, e), rest)
  {
    assert ([e] + rest)[1..] == rest;
  }

  /** The family that fails, as a legal run from an empty store: a transaction is
      seen, accepted and resolved, and then seen again in a second block with its
      sender still unknown. */
  lemma ResightingBreaksCoverage(b: Hash, t: TxId, e: Entry)
    ensures var w := World(_ => 7, _ => 0, _ => {t});
            var es := [Sighting(t, [e]), Adding(b, [t], map[b := BlockInfo(7, 0)]), Resolution(t, 7), Sighting(t, [e])];
            && LegalRun(w, Store(map[], map[], {}), {}, es)
            && !Covered(w, Run(Store(map[], map[], {}), es), ChainRun({}, es))
  {
    var w := World(_ => 7, _ => 0, _ => {t});
    var cache := map[b := BlockInfo(7, 0)];
    var seen, added, found := Sighting(t, [e]), Adding(b, [t], cache), Resolution(t, 7);
    var s0 := Store(map[], map[], {});
    var s1 := Step(s0, seen);
    var s2 := Step(s1, added);
    var s3 := Step(s2, found);
    var s4 := Step(s3, seen);
    assert [seen, added, found, seen] == [seen] + [added, found, seen];
    RunCons(w, s0, {}, seen, [added, found, seen]);
    assert [added, found, seen] == [added] + [found, seen];
    RunCons(w, s1, {}, added, [found, seen]);
    assert [found, seen] == [found] + [seen];
    RunCons(w, s2, {b}, found, [seen]);
    assert [seen] == [seen] + [];
    RunCons(w, s3, {b}, seen, []);
    AddingStep(s1, b, [t], cache);
    assert ChainStep({}, added) == {b};
    assert Known(s1.acc, [t]) == [t] by { assert [t][1..] == []; }
    assert b in s4.tracked && t in s4.tracked[b] && HasEntries(s4, t);
    assert PendingKey(w.daa(b), t) !in s4.pending;
  }

  /** A first sighting is always safe. */
  lemma FirstSightingSafe(w: World, s: Store, chain: set<Hash>, t: TxId, es: seq<Entry>)
    requires Sane(w, s) && t !in s.acc
    ensures SafeSighting(w, s, chain, t, es)
  {
  }

  ghost predicate SafeRun(w: World, s: Store, chain: set<Hash>, es: seq<Event>)
    decreases |es|
  {
    es == [] || (
      && Legal(w, s, chain, es[0])
      && (es[0].Sighting? ==> SafeSighting(w, s, chain, es[0].tx, es[0].entries))
      && SafeRun(w, Step(s, es[0]), ChainStep(chain, es[0]), es[1..]))
  }

  lemma StepCovers(w: World, s: Store, chain: set<Hash>, e: Event)
    requires Sane(w, s) && Covered(w, s, chain) && Legal(w, s, chain, e)
    requires e.Sighting? ==> SafeSighting(w, s, chain, e.tx, e.entries)
    ensures Covered(w, Step(s, e), ChainStep(chain, e))
  {
    match e {
      case ChainChange(v, cache) =>
        LegalCanApply(w, s, chain, e);
        ApplyKeeps(w, s, cache, chain, v);
      case Sighting(t, es) => SightingCoverage(w, s, chain, t, es);
      case Resolution(t, daa) =>
        var s' := Step(s, e);
        forall b, u | b in chain && b in s'.tracked && u in s'.tracked[b] && HasEntries(s', u)
          ensures PendingKey(w.daa(b), u) in s'.pending
        {
          assert u != t && HasEntries(s, u);
        }
      case Pruning(gone) =>
        var s' := Step(s, e);
        forall b, u | b in chain && b in s'.tracked && u in s'.tracked[b] && HasEntries(s', u)
          ensures PendingKey(w.daa(b), u) in s'.pending
        {
          assert u in s.tracked[b] && HasEntries(s, u);
        }
    }
  }

  lemma {:induction false} RunCovers(w: World, s: Store, chain: set<Hash>, es: seq<Event>)
    requires Sane(w, s) && Agreed(w, s, chain) && Covered(w, s, chain) && SafeRun(w, s, chain, es)
    ensures Covered(w, Run(s, es), ChainRun(chain, es)) && LegalRun(w, s, chain, es)
    decreases |es|
  {
    if es != [] {
      StepKeeps(w, s, chain, es[0]);
      StepCovers(w, s, chain, es[0]);
      RunCovers(w, Step(s, es[0]), ChainStep(chain, es[0]), es[1..]);
    }
  }

  /** Pending coverage and restart.  After every run without an unsafe sighting,
      whatever is on disk when the process dies names, among the pending
      requests, every accepted transaction whose sender is still unresolved. */
  lemma PendingCoverage(w: World, chain: set<Hash>, es: seq<Event>)
    requires SafeRun(w, Store(map[], map[], {}), chain, es)
    ensures var s := Run(Store(map[], map[], {}), es);
            forall b, t :: b in s.tracked && t in s.tracked[b] && HasEntries(s, t) ==>
              PendingKey(w.daa(b), t) in s.pending
  {
    RunCovers(w, Store(map[], map[], {}), chain, es);
    RunKeeps(w, Store(map[], map[], {}), chain, es);
  }

  // ----- catch-up: replaying changes onto a store that is already ahead -----

  function Mentioned(es: seq<Event>): set<Hash>
  {
    if es == [] then {}
    else
      (if es[0].ChainChange? then Elements(es[0].v.removed) + Elements(es[0].v.added) else {})
      + Mentioned(es[1..])
  }

  function Pruned(es: seq<Event>): set<Hash>
  {
    if es == [] then {} else (if es[0].Pruning? then es[0].gone else {}) + Pruned(es[1..])
  }

  /** Blocks of `seen` are tracked only when on `chain`, and, unless pruned,
      whenever on it, with every accepted transaction of `keys` in their list. */
  ghost predicate Follows(w: World, s: Store, chain: set<Hash>, seen: set<Hash>, gone: set<Hash>, keys: set<TxId>)
  {
    && (forall b :: b in seen && b in s.tracked ==> b in chain)
    && (forall b :: b in seen && b in chain && b !in gone ==> Complete(w, s, b, keys))
  }

  lemma FollowsStep(w: World, s: Store, chain: set<Hash>, e: Event, seen: set<Hash>, gone: set<Hash>, keys: set<TxId>)
    requires Sane(w, s) && Legal(w, s, chain, e)
    requires Follows(w, s, chain, seen, gone, keys) && keys <= s.acc.Keys
    ensures Follows(w, Step(s, e), ChainStep(chain, e), seen + Mentioned([e]), gone + Pruned([e]), keys)
    ensures forall b :: b !in Mentioned([e]) && b !in Pruned([e]) ==>
              (b in s.tracked <==> b in Step(s, e).tracked) &&
              (b in s.tracked ==> Step(s, e).tracked[b] == s.tracked[b])
  {
    assert Mentioned([]) == {} && Pruned([]) == {} && [e][1..] == [];
    if e.ChainChange? {
      LegalCanApply(w, s, chain, e);
      ApplyShape(w, s, e.cache, chain, e.v);
      var s', chain' := Step(s, e), ChainStep(chain, e);
      forall b | b in seen + Mentioned([e]) && b in chain' && b !in gone
        ensures Complete(w, s', b, keys)
      {
        if b !in e.v.added {
          assert b in chain && b !in e.v.removed && Complete(w, s, b, keys);
          assert s'.tracked[b] == s.tracked[b];
        }
      }
    }
  }

  lemma {:induction false} FollowsRun(w: World, s: Store, chain: set<Hash>, es: seq<Event>, seen: set<Hash>, gone: set<Hash>, keys: set<TxId>)
    requires Sane(w, s) && Agreed(w, s, chain) && LegalRun(w, s, chain, es)
    requires Follows(w, s, chain, seen, gone, keys) && keys <= s.acc.Keys
    ensures Follows(w, Run(s, es), ChainRun(chain, es), seen + Mentioned(es), gone + Pruned(es), keys)
    ensures forall b :: b !in Mentioned(es) && b !in Pruned(es) ==>
              (b in s.tracked <==> b in Run(s, es).tracked) &&
              (b in s.tracked ==> Run(s, es).tracked[b] == s.tracked[b])
    decreases |es|
  {
    if es == [] {
      assert seen + Mentioned(es) == seen && gone + Pruned(es) == gone;
    } else {
      var e := es[0];
      StepKeeps(w, s, chain, e);
      FollowsStep(w, s, chain, e, seen, gone, keys);
      assert Mentioned(es) == Mentioned([e]) + Mentioned(es[1..]);
      assert Pruned(es) == Pruned([e]) + Pruned(es[1..]);
      assert seen + Mentioned(es) == (seen + Mentioned([e])) + Mentioned(es[1..]);
      assert gone + Pruned(es) == (gone + Pruned([e])) + Pruned(es[1..]);
      FollowsRun(w, Step(s, e), ChainStep(chain, e), es[1..], seen + Mentioned([e]), gone + Pruned([e]), keys);
    }
  }

  lemma {:induction false} LeftChainMentioned(chain: set<Hash>, es: seq<Event>, b: Hash)
    requires b in chain && b !in ChainRun(chain, es)
    ensures b in Mentioned(es)
    decreases |es|
  {
    if b in ChainStep(chain, es[0]) {
      LeftChainMentioned(ChainStep(chain, es[0]), es[1..], b);
    }
  }

  /** The store stands where the chain stood after the changes of `es`. */
  ghost predicate BroughtTo(w: World, s: Store, chain: set<Hash>, es: seq<Event>)
  {
    && Agreed(w, s, ChainRun(chain, es))
    && (forall b :: b in Mentioned(es) && b in s.tracked ==> b in ChainRun(chain, es))
  }

  /** Catch-up convergence.  The syncer has already brought the store to the chain
      that the changes `ahead` lead to; the queued changes are then drained onto it,
      with sightings, resolutions and prunings in between.  Although the early
      changes are applied to a store they were not computed from, at the end every
      block the changes mention is tracked exactly when it is on the final chain
      (unless pruned), with all its transactions that were indexed beforehand; the
      lists of unmentioned blocks are untouched; and every tracked transaction of
      the final chain carries its true accepting block and score.  Pending coverage
      carries over separately, where it held and no sighting is unsafe. */
  lemma CatchUpConvergence(w: World, s: Store, chain: set<Hash>, es: seq<Event>, ahead: seq<Event>)
    requires Sane(w, s) && LegalRun(w, s, chain, es)
    requires BroughtTo(w, s, chain, ahead)
    ensures var s', chain' := Run(s, es), ChainRun(chain, es);
            && Sane(w, s') && Agreed(w, s', chain')
            && (forall b :: b in Mentioned(es) && b in s'.tracked ==> b in chain')
            && (forall b :: b in Mentioned(es) && b in chain' && b !in Pruned(es) ==>
                  Complete(w, s', b, s.acc.Keys))
            && (forall b :: b !in Mentioned(es) && b !in Pruned(es) ==>
                  (b in s.tracked <==> b in s'.tracked) && (b in s.tracked ==> s'.tracked[b] == s.tracked[b]))
    ensures Covered(w, s, ChainRun(chain, ahead)) && SafeRun(w, s, chain, es) ==>
              Covered(w, Run(s, es), ChainRun(chain, es))
  {
    BehindTheStore(w, s, chain, ahead);
    RunKeeps(w, s, chain, es);
    FollowsRun(w, s, chain, es, {}, {}, s.acc.Keys);
    assert {} + Mentioned(es) == Mentioned(es) && {} + Pruned(es) == Pruned(es);
    if Covered(w, s, ChainRun(chain, ahead)) && SafeRun(w, s, chain, es) { RunCovers(w, s, chain, es); }
  }

  /** What the store has right for the later chain it has right for the earlier. */
  lemma BehindTheStore(w: World, s: Store, chain: set<Hash>, ahead: seq<Event>)
    requires BroughtTo(w, s, chain, ahead)
    ensures Agreed(w, s, chain)
    ensures Covered(w, s, ChainRun(chain, ahead)) ==> Covered(w, s, chain)
  {
    forall b | b in chain && b in s.tracked ensures b in ChainRun(chain, ahead) {
      if b !in ChainRun(chain, ahead) { LeftChainMentioned(chain, ahead, b); }
    }
  }

  lemma {:induction false} JoinedChainMentioned(chain: set<Hash>, es: seq<Event>, b: Hash)
    requires b !in chain && b in ChainRun(chain, es)
    ensures b in Mentioned(es)
    decreases |es|
  {
    if b !in ChainStep(chain, es[0]) {
      JoinedChainMentioned(ChainStep(chain, es[0]), es[1..], b);
    }
  }

  /** A sync run that starts from whatever chain `d` the store stands on, and ends
      on the chain that the changes `ahead` of the queue lead to, has brought the
      store there. */
  lemma SyncBringsTo(w: World, s: Store, d: set<Hash>, sync: seq<Event>, chain: set<Hash>, ahead: seq<Event>)
    requires Sane(w, s) && Agreed(w, s, d) && s.tracked.Keys <= d && LegalRun(w, s, d, sync)
    requires ChainRun(d, sync) == ChainRun(chain, ahead)
    ensures Sane(w, Run(s, sync)) && BroughtTo(w, Run(s, sync), chain, ahead)
    ensures Run(s, sync).tracked.Keys <= ChainRun(chain, ahead)
    ensures Covered(w, s, d) && SafeRun(w, s, d, sync) ==> Covered(w, Run(s, sync), ChainRun(chain, ahead))
  {
    RunKeeps(w, s, d, sync);
    if Covered(w, s, d) && SafeRun(w, s, d, sync) { RunCovers(w, s, d, sync); }
  }

  /** After the drain the store stands on the final chain again: what holds of an
      ordinary run holds from here on. */
  lemma CatchUpRestoresAgreement(w: World, s: Store, chain: set<Hash>, es: seq<Event>, m: nat)
    requires m <= |es| && Sane(w, s) && LegalRun(w, s, chain, es)
    requires BroughtTo(w, s, chain, es[..m]) && s.tracked.Keys <= ChainRun(chain, es[..m])
    ensures var s', chain' := Run(s, es), ChainRun(chain, es);
            Sane(w, s') && Agreed(w, s', chain') && s'.tracked.Keys <= chain'
  {
    var s', chain' := Run(s, es), ChainRun(chain, es);
    BehindTheStore(w, s, chain, es[..m]);
    RunKeeps(w, s, chain, es);
    FollowsRun(w, s, chain, es, {}, {}, s.acc.Keys);
    forall b | b in s'.tracked ensures b in chain' {
      assert {} + Mentioned(es) == Mentioned(es);
      if b !in Mentioned(es) {
        MentionedPrefix(es, m);
        RunTracksFromMentions(w, s, chain, es, b);
        if b !in chain { JoinedChainMentioned(chain, es[..m], b); }
        if b !in chain' { LeftChainMentioned(chain, es, b); }
      }
    }
  }

  lemma {:induction false} MentionedPrefix(es: seq<Event>, m: nat)
    requires m <= |es|
    ensures Mentioned(es[..m]) <= Mentioned(es)
  {
    if m > 0 {
      MentionedPrefix(es[1..], m - 1);
      assert es[..m][1..] == es[1..][..m - 1];
    }
  }

  lemma {:induction false} RunTracksFromMentions(w: World, s: Store, chain: set<Hash>, es: seq<Event>, b: Hash)
    requires Sane(w, s) && Agreed(w, s, chain) && LegalRun(w, s, chain, es)
    requires b in Run(s, es).tracked && b !in Mentioned(es)
    ensures b in s.tracked
    decreases |es|
  {
    if es != [] {
      var e := es[0];
      StepKeeps(w, s, chain, e);
      RunTracksFromMentions(w, Step(s, e), ChainStep(chain, e), es[1..], b);
      if e.ChainChange? {
        LegalCanApply(w, s, chain, e);
        ApplyShape(w, s, e.cache, chain, e.v);
      }
    }
  }
}
