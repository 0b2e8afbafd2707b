/** The other half of pending coverage: which requests are pending needlessly. */
module PendingExact {
  import opened Bytes
  import opened AcceptanceLog
  import opened ChainStore

  /** `k` asks for the sender of a tracked transaction with unresolved entries. */
  ghost predicate Needed(w: World, s: Store, k: PendingKey)
  {
    HasEntries(s, k.tx) && exists b :: b in s.tracked && k.tx in s.tracked[b] && w.daa(b) == k.daa
  }

  ghost predicate NothingNeedless(w: World, s: Store)
  {
    forall k :: k in s.pending ==> Needed(w, s, k)
  }

  /** Removing a block takes back exactly the requests its addition made. */
  lemma UntrackTakesBack(w: World, s: Store, b: Hash)
    requires Sane(w, s) && NothingNeedless(w, s)
    ensures NothingNeedless(w, Untrack(s, b, w.daa(b)))
  {
    var s' := Untrack(s, b, w.daa(b));
    if b in s.tracked {
      forall k | k in s'.pending ensures Needed(w, s', k) {
        assert Needed(w, s, k);
        var c :| c in s.tracked && k.tx in s.tracked[c] && w.daa(c) == k.daa;
        assert c != b;
        assert c in s'.tracked && k.tx in s'.tracked[c];
      }
    }
  }

  lemma {:induction false} UntrackAllTakesBack(w: World, s: Store, cache: Cache, chain: set<Hash>, bs: seq<Hash>)
    requires Sane(w, s) && NothingNeedless(w, s) && OneAcceptor(w, chain) && Elements(bs) <= chain && CacheAgrees(w, cache)
    requires forall b :: b in bs && b in s.tracked ==> b in cache
    ensures NothingNeedless(w, UntrackAll(s, cache, bs))
    decreases |bs|
  {
    if bs != [] {
      var b := bs[0];
      assert b in Elements(bs) && forall x :: x in bs[1..] ==> x in bs;
      UntrackKeeps(w, s, chain, b);
      UntrackTakesBack(w, s, b);
      assert Untrack(s, b, DaaOf(cache, b)) == Untrack(s, b, w.daa(b));
      UntrackAllTakesBack(w, Untrack(s, b, w.daa(b)), cache, chain, bs[1..]);
    }
  }

  lemma TrackAsksNeeded(w: World, s: Store, b: Hash, txs: seq<TxId>)
    requires Sane(w, s) && NothingNeedless(w, s) && forall t :: t in txs <==> t in w.accepts(b)
    ensures NothingNeedless(w, Track(s, b, w.daa(b), txs))
  {
    var s' := Track(s, b, w.daa(b), txs);
    forall k | k in s'.pending ensures Needed(w, s', k) {
      if k in s.pending {
        assert Needed(w, s, k);
        var c :| c in s.tracked && k.tx in s.tracked[c] && w.daa(c) == k.daa;
        assert c in s'.tracked && k.tx in s'.tracked[c];
      } else {
        assert b in s'.tracked && k.tx in s'.tracked[b];
      }
    }
  }

  lemma {:induction false} TrackAllAsksNeeded(w: World, s: Store, cache: Cache, accepted: seq<AcceptedTxs>)
    requires Sane(w, s) && NothingNeedless(w, s) && CacheAgrees(w, cache)
    requires TruthfulLists(w, accepted) && Blocks(accepted) <= cache.Keys
    ensures NothingNeedless(w, TrackAll(s, cache, accepted))
    decreases |accepted|
  {
    if accepted != [] {
      var a, rest := accepted[0], accepted[1..];
      assert a in accepted && a.block in Blocks(accepted) && forall x :: x in rest ==> x in accepted;
      TrackAsksNeeded(w, s, a.block, a.txs);
      assert Sane(w, Track(s, a.block, w.daa(a.block), a.txs));
      TrackAllAsksNeeded(w, Track(s, a.block, w.daa(a.block), a.txs), cache, rest);
    }
  }

  /** A chain change, on any store, leaves no needless request behind. */
  lemma ChangeExact(w: World, s: Store, chain: set<Hash>, e: Event)
    requires Sane(w, s) && NothingNeedless(w, s) && Legal(w, s, chain, e) && e.ChainChange?
    ensures NothingNeedless(w, Step(s, e))
  {
    LegalCanApply(w, s, chain, e);
    UntrackAllKeeps(w, s, e.cache, chain, e.v.removed);
    UntrackAllTakesBack(w, s, e.cache, chain, e.v.removed);
    TrackAllAsksNeeded(w, UntrackAll(s, e.cache, e.v.removed), e.cache, e.v.accepted);
  }

  /** A resolution leaves a needless request exactly when the transaction is also
      pending under another score: the answer to a request made before a reorg. */
  lemma ResolutionExact(w: World, s: Store, t: TxId, daa: nat)
    requires NothingNeedless(w, s)
    ensures NothingNeedless(w, Step(s, Resolution(t, daa)))
       <==> forall k :: k in s.pending && k.tx == t ==> k.daa == daa
  {
    var s' := Step(s, Resolution(t, daa));
    forall k | k in s'.pending && k.tx != t ensures Needed(w, s', k) {
      assert Needed(w, s, k);
    }
    forall k | k in s.pending && k.tx == t && k.daa != daa ensures k in s'.pending && !Needed(w, s', k) {
    }
  }

  /** No pruned block lists a transaction whose sender is unresolved. */
  ghost predicate PrunesResolved(s: Store, gone: set<Hash>)
  {
    forall b, t :: b in gone && b in s.tracked && t in s.tracked[b] ==> !HasEntries(s, t)
  }

  lemma PruningKeepsNeeded(w: World, s: Store, gone: set<Hash>)
    requires NothingNeedless(w, s) && PrunesResolved(s, gone)
    ensures NothingNeedless(w, Step(s, Pruning(gone)))
  {
    var s' := Step(s, Pruning(gone));
    forall k | k in s'.pending ensures Needed(w, s', k) {
      assert Needed(w, s, k);
      var b :| b in s.tracked && k.tx in s.tracked[b] && w.daa(b) == k.daa;
      assert b !in gone;
      assert b in s'.tracked && k.tx in s'.tracked[b];
    }
  }

  /** On a covered store, pruning leaves a needless request exactly when it drops a
      block that lists a transaction whose sender is unresolved. */
  lemma PruningExact(w: World, s: Store, chain: set<Hash>, gone: set<Hash>)
    requires Sane(w, s) && s.tracked.Keys <= chain && OneAcceptor(w, chain)
    requires Covered(w, s, chain) && NothingNeedless(w, s)
    ensures NothingNeedless(w, Step(s, Pruning(gone))) <==> PrunesResolved(s, gone)
  {
    if PrunesResolved(s, gone) { PruningKeepsNeeded(w, s, gone); }
    var s' := Step(s, Pruning(gone));
    if NothingNeedless(w, s') {
      forall b, t | b in gone && b in s.tracked && t in s.tracked[b] ensures !HasEntries(s, t) {
        if HasEntries(s, t) {
          assert PendingKey(w.daa(b), t) in s'.pending;
          assert Needed(w, s', PendingKey(w.daa(b), t));
          var c :| c in s'.tracked && t in s'.tracked[c] && w.daa(c) == w.daa(b);
          assert c in s.tracked && t in s.tracked[c];
          SaneAt(w, s, b, t);
          SaneAt(w, s, c, t);
        }
      }
    }
  }

  /** No sighting creates a needless request. */
  lemma SightingExact(w: World, s: Store, t: TxId, es: seq<Entry>)
    requires NothingNeedless(w, s)
    ensures NothingNeedless(w, Step(s, Sighting(t, es)))
  {
    var s' := Step(s, Sighting(t, es));
    forall k | k in s'.pending ensures Needed(w, s', k) {
      assert Needed(w, s, k);
      assert s'.tracked == s.tracked;
    }
  }

  /** Resolutions and prunings that leave nothing needless, sightings that keep coverage. */
  ghost predicate Tidy(w: World, s: Store, chain: set<Hash>, e: Event)
  {
    match e
    case ChainChange(_, _) => true
    case Sighting(t, es) => SafeSighting(w, s, chain, t, es)
    case Resolution(t, daa) => forall k :: k in s.pending && k.tx == t ==> k.daa == daa
    case Pruning(gone) => PrunesResolved(s, gone)
  }

  ghost predicate TidyRun(w: World, s: Store, chain: set<Hash>, es: seq<Event>)
    decreases |es|
  {
    es == [] || (
      && Legal(w, s, chain, es[0]) && Tidy(w, s, chain, es[0])
      && TidyRun(w, Step(s, es[0]), ChainStep(chain, es[0]), es[1..]))
  }

  lemma StepExact(w: World, s: Store, chain: set<Hash>, e: Event)
    requires Sane(w, s) && NothingNeedless(w, s) && Legal(w, s, chain, e) && Tidy(w, s, chain, e)
    ensures NothingNeedless(w, Step(s, e))
  {
    match e {
      case ChainChange(_, _) => ChangeExact(w, s, chain, e);
      case Sighting(t, es) => SightingExact(w, s, t, es);
      case Resolution(t, daa) => ResolutionExact(w, s, t, daa);
      case Pruning(gone) => PruningKeepsNeeded(w, s, gone);
    }
  }

  lemma {:induction false} RunExact(w: World, s: Store, chain: set<Hash>, es: seq<Event>)
    requires Sane(w, s) && Agreed(w, s, chain) && NothingNeedless(w, s) && TidyRun(w, s, chain, es)
    ensures NothingNeedless(w, Run(s, es)) && SafeRun(w, s, chain, es)
    decreases |es|
  {
    if es != [] {
      StepKeeps(w, s, chain, es[0]);
      StepExact(w, s, chain, es[0]);
      RunExact(w, Step(s, es[0]), ChainStep(chain, es[0]), es[1..]);
    }
  }

  /** Pending requests, exactly.  After every tidy run, reorgs included, a request
      is pending if and only if some chain block of that score tracks the
      transaction and its sender is unresolved. */
  lemma PendingExactly(w: World, chain: set<Hash>, es: seq<Event>, k: PendingKey)
    requires TidyRun(w, Store(map[], map[], {}), chain, es)
    ensures var s := Run(Store(map[], map[], {}), es);
            k in s.pending <==> Needed(w, s, k)
  {
    RunExact(w, Store(map[], map[], {}), chain, es);
    PendingCoverage(w, chain, es);
  }

  // ----- runs that leave a needless request -----

  function Replacing(a: Hash, b: Hash, txs: seq<TxId>, cache: Cache): Event
  {
    ChainChange(Vcc([a], [b], [AcceptedTxs(b, txs)]), cache)
  }

  lemma ReplacingStep(s: Store, a: Hash, b: Hash, txs: seq<TxId>, cache: Cache)
    ensures Step(s, Replacing(a, b, txs, cache)) == Track(Untrack(s, a, DaaOf(cache, a)), b, DaaOf(cache, b), txs)
    ensures Elements([a]) == {a} && Elements([b]) == {b} == Blocks([AcceptedTxs(b, txs)])
  {
    var s1 := Untrack(s, a, DaaOf(cache, a));
    assert [a][1..] == [];
    assert UntrackAll(s, cache, [a]) == UntrackAll(s1, cache, []) == s1;
    AddingStep(s1, b, txs, cache);
    assert UntrackAll(s1, cache, []) == s1;
  }

  /** A store that indexes one transaction, with one entry. */
  function Single(t: TxId, h: Header, e: Entry, tracked: map<Hash, seq<TxId>>, pending: set<PendingKey>): Store
  {
    Store(map[t := Rec(h, [e])], tracked, pending)
  }

  lemma AcceptSingle(t: TxId, h: Header, e: Entry, b: Hash, daa: nat)
    ensures Track(Single(t, h, e, map[], {}), b, daa, [t])
         == Single(t, Header(b, daa), e, map[b := [t]], {PendingKey(daa, t)})
  {
    var acc := map[t := Rec(h, [e])];
    assert [t][1..] == [];
    assert Known(acc, [t]) == [t];
    assert SetHeaders(acc, [t], Header(b, daa)) == map[t := Rec(Header(b, daa), [e])];
    assert Unresolved(acc, [t], daa) == {PendingKey(daa, t)};
  }

  lemma DropSingle(t: TxId, h: Header, e: Entry, a: Hash, daa: nat)
    ensures Untrack(Single(t, h, e, map[a := [t]], {PendingKey(daa, t)}), a, daa)
         == Single(t, Header(a, daa), e, map[], {})
  {
    var acc := map[t := Rec(h, [e])];
    assert SetHeaders(acc, [t], Header(a, daa)) == map[t := Rec(Header(a, daa), [e])];
    assert Unresolved(acc, [t], daa) == {PendingKey(daa, t)};
    assert map[a := [t]] - {a} == map[];
  }

  lemma LegalFirst(w: World, s: Store, b: Hash, t: TxId, cache: Cache)
    requires CacheAgrees(w, cache) && b in cache && w.accepts(b) == {t}
    ensures Legal(w, s, {}, Adding(b, [t], cache)) && ChainStep({}, Adding(b, [t], cache)) == {b}
  {
    AddingStep(s, b, [t], cache);
    assert ChainStep({}, Adding(b, [t], cache)) == {b};
    assert TruthfulLists(w, [AcceptedTxs(b, [t])]);
  }

  lemma LegalSwap(w: World, s: Store, a: Hash, b: Hash, t: TxId, cache: Cache)
    requires CacheAgrees(w, cache) && a in cache && b in cache && w.accepts(b) == {t}
    ensures Legal(w, s, {a}, Replacing(a, b, [t], cache)) && ChainStep({a}, Replacing(a, b, [t], cache)) == {b}
  {
    ReplacingStep(s, a, b, [t], cache);
    assert ChainStep({a}, Replacing(a, b, [t], cache)) == {b};
    assert TruthfulLists(w, [AcceptedTxs(b, [t])]);
  }

  /** Seen, accepted by `a`, accepted by `b` instead, and then the answer to the
      request made for `a`: the request made for `b` stays. */
  lemma LateAnswer(w: World, a: Hash, b: Hash, t: TxId, e: Entry)
    requires w.daa(a) != w.daa(b) && w.accepts(a) == {t} == w.accepts(b)
    ensures var cache := map[a := BlockInfo(w.daa(a), w.work(a)), b := BlockInfo(w.daa(b), w.work(b))];
            var es := [Sighting(t, [e]), Adding(a, [t], cache), Replacing(a, b, [t], cache), Resolution(t, w.daa(a))];
            var s, k := Run(Store(map[], map[], {}), es), PendingKey(w.daa(b), t);
            LegalRun(w, Store(map[], map[], {}), {}, es) && k in s.pending && !Needed(w, s, k)
  {
    var cache := map[a := BlockInfo(w.daa(a), w.work(a)), b := BlockInfo(w.daa(b), w.work(b))];
    var s0 := Store(map[], map[], {});
    var s1 := Single(t, ZeroHeader(), e, map[], {});
    var s2 := Single(t, Header(a, w.daa(a)), e, map[a := [t]], {PendingKey(w.daa(a), t)});
    var s3 := Single(t, Header(b, w.daa(b)), e, map[b := [t]], {PendingKey(w.daa(b), t)});
    AddingStep(s1, a, [t], cache);
    AcceptSingle(t, ZeroHeader(), e, a, w.daa(a));
    ReplacingStep(s2, a, b, [t], cache);
    DropSingle(t, Header(a, w.daa(a)), e, a, w.daa(a));
    AcceptSingle(t, Header(a, w.daa(a)), e, b, w.daa(b));
    LegalFirst(w, s1, a, t, cache);
    LegalSwap(w, s2, a, b, t, cache);
    FourSteps(w, s0, s1, s2, s3, Sighting(t, [e]), Adding(a, [t], cache), Replacing(a, b, [t], cache), Resolution(t, w.daa(a)));
    assert !HasEntries(Step(s3, Resolution(t, w.daa(a))), t);
  }

  lemma FourSteps(w: World, s0: Store, s1: Store, s2: Store, s3: Store, e0: Event, e1: Event, e2: Event, e3: Event)
    requires Step(s0, e0) == s1 && Step(s1, e1) == s2 && Step(s2, e2) == s3
    ensures Run(s0, [e0, e1, e2, e3]) == Step(s3, e3)
    ensures var c1 := ChainStep({}, e0);
            var c2 := ChainStep(c1, e1);
            var c3 := ChainStep(c2, e2);
            LegalRun(w, s0, {}, [e0, e1, e2, e3]) <==>
              Legal(w, s0, {}, e0) && Legal(w, s1, c1, e1) && Legal(w, s2, c2, e2) && Legal(w, s3, c3, e3)
  {
    var c1 := ChainStep({}, e0);
    var c2 := ChainStep(c1, e1);
    var c3 := ChainStep(c2, e2);
    assert [e0, e1, e2, e3] == [e0] + [e1, e2, e3];
    RunCons(w, s0, {}, e0, [e1, e2, e3]);
    assert [e1, e2, e3] == [e1] + [e2, e3];
    RunCons(w, s1, c1, e1, [e2, e3]);
    assert [e2, e3] == [e2] + [e3];
    RunCons(w, s2, c2, e2, [e3]);
    assert [e3] == [e3] + [];
    RunCons(w, s3, c3, e3, []);
  }

  /** Seen, accepted by `b`, and `b` pruned: the request made for it stays. */
  lemma PrunedUnanswered(w: World, b: Hash, t: TxId, e: Entry)
    requires w.accepts(b) == {t}
    ensures var cache := map[b := BlockInfo(w.daa(b), w.work(b))];
            var es := [Sighting(t, [e]), Adding(b, [t], cache), Pruning({b})];
            var s, k := Run(Store(map[], map[], {}), es), PendingKey(w.daa(b), t);
            LegalRun(w, Store(map[], map[], {}), {}, es) && k in s.pending && !Needed(w, s, k)
  {
    var cache := map[b := BlockInfo(w.daa(b), w.work(b))];
    var seen, added, pruned := Sighting(t, [e]), Adding(b, [t], cache), Pruning({b});
    var s0 := Store(map[], map[], {});
    var s1 := Single(t, ZeroHeader(), e, map[], {});
    var s2 := Single(t, Header(b, w.daa(b)), e, map[b := [t]], {PendingKey(w.daa(b), t)});
    AddingStep(s1, b, [t], cache);
    AcceptSingle(t, ZeroHeader(), e, b, w.daa(b));
    LegalFirst(w, s1, b, t, cache);
    assert [seen, added, pruned] == [seen] + [added, pruned];
    RunCons(w, s0, {}, seen, [added, pruned]);
    assert [added, pruned] == [added] + [pruned];
    RunCons(w, s1, {}, added, [pruned]);
    assert [pruned] == [pruned] + [];
    RunCons(w, s2, {b}, pruned, []);
  }
}
