/** A store over its whole life: catch-ups, outages and restarts.  Each phase applies
    changes that follow from some chain, but not always from the chain the phase
    before it ended on: real-time changes queued during a sync start from an older
    chain than the one the sync leads to. */
module CatchUp {
  import opened Bytes
  import opened AcceptanceLog
  import opened ChainStore

  // ----- which blocks a phase leaves tracked -----

  /** Every tracked block that the events neither mention nor prune is on the chain
      they start from. */
  ghost predicate NoLeftover(s: Store, chain: set<Hash>, es: seq<Event>)
  {
    forall b :: b in s.tracked && b !in Mentioned(es) && b !in Pruned(es) ==> b in chain
  }

  lemma {:induction false} PrunedStaysGone(w: World, s: Store, chain: set<Hash>, es: seq<Event>, b: Hash)
    requires Sane(w, s) && Agreed(w, s, chain) && LegalRun(w, s, chain, es)
    requires b in Pruned(es) && b !in Mentioned(es)
    ensures b !in Run(s, es).tracked
    decreases |es|
  {
    var e, rest := es[0], es[1..];
    StepKeeps(w, s, chain, e);
    if b in Pruned(rest) {
      PrunedStaysGone(w, Step(s, e), ChainStep(chain, e), rest, b);
    } else if b in Run(s, es).tracked {
      RunTracksFromMentions(w, Step(s, e), ChainStep(chain, e), rest, b);
    }
  }

  /** After a phase that starts from a chain the store agrees with, only blocks of
      the chain it leads to are tracked, exactly when it leaves nothing over. */
  lemma LeftoversExactly(w: World, s: Store, chain: set<Hash>, es: seq<Event>)
    requires Sane(w, s) && Agreed(w, s, chain) && LegalRun(w, s, chain, es)
    ensures Run(s, es).tracked.Keys <= ChainRun(chain, es) <==> NoLeftover(s, chain, es)
  {
    var s', chain' := Run(s, es), ChainRun(chain, es);
    FollowsRun(w, s, chain, es, {}, {}, s.acc.Keys);
    assert {} + Mentioned(es) == Mentioned(es) && {} + Pruned(es) == Pruned(es);
    forall b | b !in Mentioned(es) ensures b in chain <==> b in chain' {
      if b in chain && b !in chain' { LeftChainMentioned(chain, es, b); }
      if b !in chain && b in chain' { JoinedChainMentioned(chain, es, b); }
    }
    forall b | b in s'.tracked && b !in Mentioned(es) ensures b in s.tracked && b !in Pruned(es) {
      RunTracksFromMentions(w, s, chain, es, b);
      if b in Pruned(es) { PrunedStaysGone(w, s, chain, es, b); }
    }
  }

  /** Nothing is left over by changes that pass the chain the store stands on. */
  lemma MetLeavesNothing(s: Store, at: set<Hash>, chain: set<Hash>, es: seq<Event>, m: nat)
    requires m <= |es| && at == ChainRun(chain, es[..m]) && s.tracked.Keys <= at
    ensures NoLeftover(s, chain, es)
  {
    MentionedPrefix(es, m);
    forall b | b in s.tracked && b !in Mentioned(es) ensures b in chain {
      if b !in chain { JoinedChainMentioned(chain, es[..m], b); }
    }
  }

  // ----- whole lives -----

  datatype Phase = Phase(chain: set<Hash>, events: seq<Event>)

  function LifeRun(s: Store, phases: seq<Phase>): Store
    decreases |phases|
  {
    if phases == [] then s else LifeRun(Run(s, phases[0].events), phases[1..])
  }

  /** The chain the last phase leads to. */
  function LifeChain(at: set<Hash>, phases: seq<Phase>): set<Hash>
    decreases |phases|
  {
    if phases == [] then at else LifeChain(ChainRun(phases[0].chain, phases[0].events), phases[1..])
  }

  ghost predicate LegalLife(w: World, s: Store, phases: seq<Phase>)
    decreases |phases|
  {
    phases == [] || (
      LegalRun(w, s, phases[0].chain, phases[0].events) && LegalLife(w, Run(s, phases[0].events), phases[1..]))
  }

  ghost predicate SafeLife(w: World, s: Store, phases: seq<Phase>)
    decreases |phases|
  {
    phases == [] || (
      SafeRun(w, s, phases[0].chain, phases[0].events) && SafeLife(w, Run(s, phases[0].events), phases[1..]))
  }

  /** No phase starts from a chain with a tracked block that is not on the chain
      the phase before it led to. */
  ghost predicate Joined(s: Store, at: set<Hash>, phases: seq<Phase>)
    decreases |phases|
  {
    phases == [] || (
      var p := phases[0];
      && s.tracked.Keys * p.chain <= at
      && Joined(Run(s, p.events), ChainRun(p.chain, p.events), phases[1..]))
  }

  /** Every phase passes the chain the phase before it led to: it starts there, or
      comes there after some of its changes. */
  ghost predicate Meets(at: set<Hash>, phases: seq<Phase>)
    decreases |phases|
  {
    phases == [] || (
      var p := phases[0];
      && (exists m :: 0 <= m <= |p.events| && at == ChainRun(p.chain, p.events[..m]))
      && Meets(ChainRun(p.chain, p.events), phases[1..]))
  }

  /** Headers agree with the last chain at the end of every joined life, whatever
      the phases leave over. */
  lemma {:induction false} LifeAgrees(w: World, s: Store, at: set<Hash>, phases: seq<Phase>)
    requires Sane(w, s) && Agreed(w, s, at) && LegalLife(w, s, phases) && Joined(s, at, phases)
    ensures Sane(w, LifeRun(s, phases)) && Agreed(w, LifeRun(s, phases), LifeChain(at, phases))
    ensures Covered(w, s, at) && SafeLife(w, s, phases) ==> Covered(w, LifeRun(s, phases), LifeChain(at, phases))
    decreases |phases|
  {
    if phases != [] {
      var p := phases[0];
      assert Agreed(w, s, p.chain);
      RunKeeps(w, s, p.chain, p.events);
      if Covered(w, s, at) && SafeLife(w, s, phases) {
        assert Covered(w, s, p.chain);
        RunCovers(w, s, p.chain, p.events);
      }
      LifeAgrees(w, Run(s, p.events), ChainRun(p.chain, p.events), phases[1..]);
    }
  }

  /** A life whose phases meet tracks only blocks of its last chain. */
  lemma {:induction false} LifeOnChain(w: World, s: Store, at: set<Hash>, phases: seq<Phase>)
    requires Sane(w, s) && Agreed(w, s, at) && s.tracked.Keys <= at
    requires LegalLife(w, s, phases) && Meets(at, phases)
    ensures Joined(s, at, phases) && LifeRun(s, phases).tracked.Keys <= LifeChain(at, phases)
    decreases |phases|
  {
    if phases != [] {
      var p := phases[0];
      var m :| 0 <= m <= |p.events| && at == ChainRun(p.chain, p.events[..m]);
      MetLeavesNothing(s, at, p.chain, p.events, m);
      assert Agreed(w, s, p.chain);
      LeftoversExactly(w, s, p.chain, p.events);
      RunKeeps(w, s, p.chain, p.events);
      LifeOnChain(w, Run(s, p.events), ChainRun(p.chain, p.events), phases[1..]);
    }
  }

  // ----- a life that leaves a block over -----

  /** A sync leads to `x`; of the changes queued meanwhile, only the first, which
      adds `y`, is drained before the connection is lost; the next sync goes on
      from `y` to `z`.  `x` stays tracked, off every chain since, and the transaction
      that both `x` and `z` accept stays in both their lists. */
  lemma LeftOver(w: World, cache: Cache, x: Hash, y: Hash, z: Hash, t: TxId, es: seq<Entry>)
    requires CacheAgrees(w, cache) && x in cache && y in cache && z in cache && x != z
    requires w.accepts(x) == w.accepts(z) == {t} && w.accepts(y) == {}
    ensures var life := LeftOverLife(cache, x, y, z, t, es);
            var s' := LifeRun(Store(map[], map[], {}), life);
            && LegalLife(w, Store(map[], map[], {}), life) && Joined(Store(map[], map[], {}), {}, life)
            && LifeChain({}, life) == {y, z} && x in s'.tracked && z in s'.tracked
            && t in s'.tracked[x] && t in s'.tracked[z]
  {
    var s := Store(map[], map[], {});
    var o, p := Phase({}, [Sighting(t, es)]), Phase({}, [Adding(x, [t], cache)]);
    var q, r := Phase({}, [Adding(y, [], cache)]), Phase({y}, [Adding(z, [t], cache)]);
    var s1 := Run(s, o.events);
    var s2 := Run(s1, p.events);
    var s3 := Run(s2, q.events);
    FourPhases(w, s, o, p, q, r);
    LeftOverTracks(cache, s, x, y, z, t, es);
    SightingLegal(w, s, {}, t, es);
    LeftOverLegal(w, cache, s1, s1, x, y, z, t);
    LeftOverLegal(w, cache, s2, s3, x, y, z, t);
  }

  function LeftOverLife(cache: Cache, x: Hash, y: Hash, z: Hash, t: TxId, es: seq<Entry>): seq<Phase>
  {
    [Phase({}, [Sighting(t, es)]), Phase({}, [Adding(x, [t], cache)]),
     Phase({}, [Adding(y, [], cache)]), Phase({y}, [Adding(z, [t], cache)])]
  }

  lemma LeftOverTracks(cache: Cache, s: Store, x: Hash, y: Hash, z: Hash, t: TxId, es: seq<Entry>)
    requires x != y && x != z && s.tracked == map[]
    ensures var s1 := Run(s, [Sighting(t, es)]);
            var s2 := Run(s1, [Adding(x, [t], cache)]);
            var s3 := Run(s2, [Adding(y, [], cache)]);
            var s4 := Run(s3, [Adding(z, [t], cache)]);
            && s1.tracked.Keys == {} && s3.tracked.Keys == {x, y}
            && x in s4.tracked && z in s4.tracked && t in s4.tracked[x] && t in s4.tracked[z]
  {
    var s1 := Run(s, [Sighting(t, es)]);
    var s2 := Run(s1, [Adding(x, [t], cache)]);
    var s3 := Run(s2, [Adding(y, [], cache)]);
    SightingTracks(s, t, es);
    BlockTracks(s1, x, [t], cache);
    BlockTracks(s2, y, [], cache);
    BlockTracks(s3, z, [t], cache);
  }

  lemma LeftOverLegal(w: World, cache: Cache, s: Store, s': Store, x: Hash, y: Hash, z: Hash, t: TxId)
    requires CacheAgrees(w, cache) && x in cache && y in cache && z in cache
    requires w.accepts(x) == w.accepts(z) == {t} && w.accepts(y) == {}
    ensures LegalRun(w, s, {}, [Adding(x, [t], cache)]) && LegalRun(w, s, {}, [Adding(y, [], cache)])
    ensures LegalRun(w, s', {y}, [Adding(z, [t], cache)])
    ensures ChainRun({}, [Adding(y, [], cache)]) == {y} && ChainRun({y}, [Adding(z, [t], cache)]) == {y, z}
  {
    BlockLegal(w, s, {}, x, [t], cache);
    BlockLegal(w, s, {}, y, [], cache);
    BlockLegal(w, s', {y}, z, [t], cache);
    assert {y} + {z} == {y, z};
  }

  lemma FourPhases(w: World, s: Store, o: Phase, p: Phase, q: Phase, r: Phase)
    ensures var s1 := Run(s, o.events);
            var s2 := Run(s1, p.events);
            var s3 := Run(s2, q.events);
            && LifeRun(s, [o, p, q, r]) == Run(s3, r.events) && LifeChain({}, [o, p, q, r]) == ChainRun(r.chain, r.events)
            && (LegalLife(w, s, [o, p, q, r]) <==>
                  && LegalRun(w, s, o.chain, o.events) && LegalRun(w, s1, p.chain, p.events)
                  && LegalRun(w, s2, q.chain, q.events) && LegalRun(w, s3, r.chain, r.events))
            && (Joined(s, {}, [o, p, q, r]) <==>
                  && s.tracked.Keys * o.chain == {}
                  && s1.tracked.Keys * p.chain <= ChainRun(o.chain, o.events)
                  && s2.tracked.Keys * q.chain <= ChainRun(p.chain, p.events)
                  && s3.tracked.Keys * r.chain <= ChainRun(q.chain, q.events))
  {
    var s1 := Run(s, o.events);
    var s2 := Run(s1, p.events);
    var s3 := Run(s2, q.events);
    assert [o, p, q, r] == [o] + [p, q, r] && [p, q, r] == [p] + [q, r] && [q, r] == [q] + [r] && [r] == [r] + [];
    LifeCons(w, s, {}, o, [p, q, r]);
    LifeCons(w, s1, ChainRun(o.chain, o.events), p, [q, r]);
    LifeCons(w, s2, ChainRun(p.chain, p.events), q, [r]);
    LifeCons(w, s3, ChainRun(q.chain, q.events), r, []);
  }

  /** One phase of a life, then the rest. */
  lemma LifeCons(w: World, s: Store, at: set<Hash>, p: Phase, rest: seq<Phase>)
    ensures var s', at' := Run(s, p.events), ChainRun(p.chain, p.events);
            && (LegalLife(w, s, [p] + rest) <==> LegalRun(w, s, p.chain, p.events) && LegalLife(w, s', rest))
            && LifeRun(s, [p] + rest) == LifeRun(s', rest) && LifeChain(at, [p] + rest) == LifeChain(at', rest)
            && (Joined(s, at, [p] + rest) <==>
                  s.tracked.Keys * p.chain <= at && Joined(s', at', rest))
  {
    assert ([p] + rest)[1..] == rest;
  }

  lemma SightingLegal(w: World, s: Store, chain: set<Hash>, t: TxId, es: seq<Entry>)
    ensures LegalRun(w, s, chain, [Sighting(t, es)]) && ChainRun(chain, [Sighting(t, es)]) == chain
  {
    var e := Sighting(t, es);
    assert [e] == [e] + [];
    RunCons(w, s, chain, e, []);
  }

  lemma SightingTracks(s: Store, t: TxId, es: seq<Entry>)
    ensures var s' := Run(s, [Sighting(t, es)]);
            t in s'.acc && s'.tracked == s.tracked
  {
    assert [Sighting(t, es)][1..] == [];
  }

  lemma BlockLegal(w: World, s: Store, chain: set<Hash>, b: Hash, txs: seq<TxId>, cache: Cache)
    requires CacheAgrees(w, cache) && b in cache && OneAcceptor(w, chain + {b})
    requires forall t :: t in txs <==> t in w.accepts(b)
    ensures LegalRun(w, s, chain, [Adding(b, txs, cache)])
    ensures ChainRun(chain, [Adding(b, txs, cache)]) == chain + {b}
    ensures {} + {b} == {b}
  {
    var e := Adding(b, txs, cache);
    AddingStep(s, b, txs, cache);
    assert [e] == [e] + [];
    RunCons(w, s, chain, e, []);
    assert NextChain(chain, e.v) == chain + {b};
    assert TruthfulLists(w, e.v.accepted);
    OneAcceptorSubset(w, chain, chain + {b});
  }

  lemma BlockTracks(s: Store, b: Hash, txs: seq<TxId>, cache: Cache)
    ensures var s' := Run(s, [Adding(b, txs, cache)]);
            && s'.acc.Keys == s.acc.Keys && s'.tracked.Keys == s.tracked.Keys + {b}
            && (forall c :: c in s.tracked && c != b ==> s'.tracked[c] == s.tracked[c])
            && (forall t :: t in txs && t in s.acc ==> t in s'.tracked[b])
  {
    AddingStep(s, b, txs, cache);
    assert [Adding(b, txs, cache)][1..] == [];
  }
}
