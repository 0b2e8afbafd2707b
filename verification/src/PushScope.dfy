/** Which devices a contextual push event goes to: the registrations of one wallet
    that is not the sender's. */
module PushScope {
  import opened Bytes

  const FRESHNESS_MARGIN_MS: nat := 10 * 60 * 1000
  const U64_MAX: nat := 0xFFFF_FFFF_FFFF_FFFF

  /** Milliseconds, 64 bits wide. */
  type Millis = x: nat | x <= U64_MAX witness 0

  datatype Route = Route(peer: string, aliases: seq<string>)

  datatype Registration = Registration(
    token: string,
    tokenType: string,
    bundle: Option<string>,
    wallet: string,
    primary: Option<string>,
    routes: seq<Route>,
    updatedAt: Millis)

  /** The contextual event: who sent it, to whom if known, under which alias. */
  datatype Push = Push(sender: string, receiver: Option<string>, alias: string)

  /** The contact-request aliases derived from a wallet address. */
  type Inbox = string -> seq<string>

  predicate Allows(r: Registration, e: Push, inbox: Inbox)
  {
    e.alias in inbox(r.wallet) ||
    exists route :: route in r.routes && route.peer == e.sender && e.alias in route.aliases
  }

  predicate MatchesAddress(r: Registration, address: string)
  {
    r.wallet == address || r.primary == Some(address)
  }

  function NonSender(regs: seq<Registration>, e: Push, inbox: Inbox): (s: seq<Registration>)
    ensures forall r :: r in s <==> r in regs && Allows(r, e, inbox) && !MatchesAddress(r, e.sender)
  {
    if regs == [] then []
    else
      (if Allows(regs[0], e, inbox) && !MatchesAddress(regs[0], e.sender) then [regs[0]] else [])
      + NonSender(regs[1..], e, inbox)
  }

  function AddressedTo(regs: seq<Registration>, receiver: string): (s: seq<Registration>)
    ensures forall r :: r in s <==> r in regs && MatchesAddress(r, receiver)
  {
    if regs == [] then []
    else (if MatchesAddress(regs[0], receiver) then [regs[0]] else []) + AddressedTo(regs[1..], receiver)
  }

  /** The registrations that decide the wallet: those of the receiver if any,
      otherwise all that are not the sender's. */
  function Deciding(regs: seq<Registration>, e: Push, inbox: Inbox): seq<Registration>
  {
    var others := NonSender(regs, e, inbox);
    var receivers := if e.receiver.Some? then AddressedTo(others, e.receiver.value) else [];
    if receivers != [] then receivers else others
  }

  /** Which registrations decide: those watching the alias, in their wallet's inbox or
      on a route from the sender, that are not the sender's by wallet or primary
      address, and are the receiver's whenever some such registration is. */
  lemma DecidingExactly(regs: seq<Registration>, e: Push, inbox: Inbox, r: Registration)
    ensures r in Deciding(regs, e, inbox) <==>
              && r in regs
              && (e.alias in inbox(r.wallet) || exists p :: p in r.routes && p.peer == e.sender && e.alias in p.aliases)
              && r.wallet != e.sender && r.primary != Some(e.sender)
              && (e.receiver.Some? && r.wallet != e.receiver.value && r.primary != e.receiver ==>
                    forall q ::
                      (&& q in regs && (q.wallet == e.receiver.value || q.primary == e.receiver)
                       && (e.alias in inbox(q.wallet) || exists p :: p in q.routes && p.peer == e.sender && e.alias in p.aliases)) ==>
                      q.wallet == e.sender || q.primary == Some(e.sender))
  {
    var others := NonSender(regs, e, inbox);
    if e.receiver.Some? {
      var receivers := AddressedTo(others, e.receiver.value);
      if receivers != [] {
        var q := receivers[0];
        assert q in receivers && q in others && MatchesAddress(q, e.receiver.value);
      }
    }
  }

  function Wallets(regs: seq<Registration>): set<string>
  {
    set r | r in regs :: r.wallet
  }

  // ----- the freshest wallet -----

  /** `m` gives each wallet its newest update. */
  ghost predicate IsNewest(m: map<string, nat>, regs: seq<Registration>)
  {
    && m.Keys == Wallets(regs)
    && (forall r :: r in regs ==> r.wallet in m && r.updatedAt <= m[r.wallet])
    && (forall w :: w in m ==> exists r :: r in regs && r.wallet == w && r.updatedAt == m[w])
  }

  ghost predicate Listing(ordered: seq<(string, nat)>, m: map<string, nat>)
  {
    && |ordered| == |m|
    && (forall i :: 0 <= i < |ordered| ==> ordered[i].0 in m && m[ordered[i].0] == ordered[i].1)
    && (forall w :: w in m ==> exists i :: 0 <= i < |ordered| && ordered[i].0 == w)
    && (forall i, j :: 0 <= i < j < |ordered| ==> ordered[i].0 != ordered[j].0)
  }

  predicate Descending(ordered: seq<(string, nat)>)
  {
    forall i, j :: 0 <= i < j < |ordered| ==> ordered[i].1 >= ordered[j].1
  }

  /** `ordered` lists the wallets with their newest updates, newest first. */
  ghost predicate SortedListing(ordered: seq<(string, nat)>, m: map<string, nat>)
  {
    Listing(ordered, m) && Descending(ordered)
  }

  function SaturatingAdd(x: nat, y: nat): nat
  {
    if x + y <= U64_MAX then x + y else U64_MAX
  }

  /** The decision from the sorted list. */
  function Freshest(ordered: seq<(string, nat)>): Option<string>
  {
    if |ordered| <= 1 then None
    else if ordered[0].1 >= SaturatingAdd(ordered[1].1, FRESHNESS_MARGIN_MS) then Some(ordered[0].0)
    else None
  }

  /** `w` is ahead of every other wallet by the margin. */
  ghost predicate Beats(m: map<string, nat>, w: string)
  {
    w in m && |m| > 1 && forall v :: v in m && v != w ==> m[w] >= m[v] + FRESHNESS_MARGIN_MS
  }

  /** The loop that collects the newest update of each wallet. */
  method CollectUpdates(regs: seq<Registration>) returns (updates: map<string, nat>)
    ensures IsNewest(updates, regs)
  {
    updates := map[];
    var n := 0;
    while n < |regs|
      invariant 0 <= n <= |regs|
      invariant IsNewest(updates, regs[..n])
    {
      var r := regs[n];
      NewestSnoc(updates, regs[..n], r);
      assert regs[..n + 1] == regs[..n] + [r];
      if r.wallet in updates {
        var t := updates[r.wallet];
        updates := updates[r.wallet := if t >= r.updatedAt then t else r.updatedAt];
      } else {
        updates := updates[r.wallet := r.updatedAt];
      }
      n := n + 1;
    }
    assert regs[..n] == regs;
  }

  /** The library's sort: newest first, ties in any order. */
  type Sort = map<string, nat> -> seq<(string, nat)>

  /** The wallet chosen among several, if one is clearly the freshest. */
  method FreshestContextualWallet(regs: seq<Registration>, sort: Sort) returns (wallet: Option<string>, ghost m: map<string, nat>)
    requires forall u :: SortedListing(sort(u), u)
    ensures IsNewest(m, regs)
    ensures |Wallets(regs)| <= 1 ==> wallet == None
    ensures |Wallets(regs)| > 1 && wallet.Some? ==> Leads(m, wallet.value)
    ensures |Wallets(regs)| > 1 && wallet.None? ==> forall w :: !Leads(m, w)
    ensures (forall r :: r in regs ==> r.updatedAt + FRESHNESS_MARGIN_MS <= U64_MAX) ==>
              forall w :: wallet == Some(w) <==> Beats(m, w)
  {
    var updates := CollectUpdates(regs);
    m := updates;
    WalletCount(regs, m);
    if |updates| <= 1 {
      return None, m;
    }
    var ordered := sort(updates);
    wallet := Freshest(ordered);
    FreshestLeads(ordered, m);
    if forall r :: r in regs ==> r.updatedAt + FRESHNESS_MARGIN_MS <= U64_MAX {
      UpdatesInRange(regs, m);
      FreshestIsBeats(ordered, m);
    }
  }

  lemma UpdatesInRange(regs: seq<Registration>, m: map<string, nat>)
    requires IsNewest(m, regs) && forall r :: r in regs ==> r.updatedAt + FRESHNESS_MARGIN_MS <= U64_MAX
    ensures forall w :: w in m ==> m[w] + FRESHNESS_MARGIN_MS <= U64_MAX
  {
    forall w | w in m ensures m[w] + FRESHNESS_MARGIN_MS <= U64_MAX {
      var r :| r in regs && r.wallet == w && r.updatedAt == m[w];
    }
  }

  lemma NewestSnoc(m: map<string, nat>, regs: seq<Registration>, r: Registration)
    requires IsNewest(m, regs)
    ensures var t := if r.wallet in m && m[r.wallet] >= r.updatedAt then m[r.wallet] else r.updatedAt;
            IsNewest(m[r.wallet := t], regs + [r])
  {
    var t := if r.wallet in m && m[r.wallet] >= r.updatedAt then m[r.wallet] else r.updatedAt;
    var m', all := m[r.wallet := t], regs + [r];
    forall w | w in m' ensures exists x :: x in all && x.wallet == w && x.updatedAt == m'[w] {
      if w == r.wallet && t == r.updatedAt {
        assert r in all;
      } else {
        var x :| x in regs && x.wallet == w && x.updatedAt == m[w];
        assert x in all;
      }
    }
    assert Wallets(all) == Wallets(regs) + {r.wallet};
  }

  lemma NewestUnique(a: map<string, nat>, b: map<string, nat>, regs: seq<Registration>, regs': seq<Registration>)
    requires IsNewest(a, regs) && IsNewest(b, regs') && (forall r :: r in regs <==> r in regs')
    ensures a == b
  {
    assert Wallets(regs) == Wallets(regs');
    forall w | w in a ensures a[w] == b[w] {
      var r :| r in regs && r.wallet == w && r.updatedAt == a[w];
      var s :| s in regs' && s.wallet == w && s.updatedAt == b[w];
    }
  }

  lemma TopIsUnique(m: map<string, nat>, w: string, top: string)
    requires Beats(m, w) && top in m && m[top] >= m[w]
    ensures w == top
  {
  }

  /** Ahead of every other wallet by the margin, as the program adds: up to 2^64 - 1. */
  ghost predicate Leads(m: map<string, nat>, w: string)
  {
    w in m && |m| > 1 && forall v :: v in m && v != w ==> m[w] >= SaturatingAdd(m[v], FRESHNESS_MARGIN_MS)
  }

  /** Whatever the updates, the first place leads if any wallet does. */
  lemma FreshestLeads(ordered: seq<(string, nat)>, m: map<string, nat>)
    requires SortedListing(ordered, m) && |m| > 1 && (forall w :: w in m ==> m[w] <= U64_MAX)
    ensures Freshest(ordered).Some? ==> Leads(m, Freshest(ordered).value)
    ensures Freshest(ordered).None? ==> forall w :: !Leads(m, w)
  {
    var w0, w1 := ordered[0], ordered[1];
    assert w0.0 in m && w1.0 in m && w0.0 != w1.0;
    forall v | v in m && v != w0.0 ensures m[v] <= w1.1 {
      var i :| 0 <= i < |ordered| && ordered[i].0 == v;
      assert i >= 1 && ordered[i].1 <= ordered[1].1;
    }
  }

  /** The sort's first two places decide about all wallets.  The decision is the
      intended one exactly when the newest update is not at the very end of the
      64-bit range with the runner-up within the margin of it. */
  lemma FreshestIsBeats(ordered: seq<(string, nat)>, m: map<string, nat>)
    requires SortedListing(ordered, m) && |m| > 1 && (forall w :: w in m ==> m[w] <= U64_MAX)
    ensures (Freshest(ordered).Some? <==> Beats(m, ordered[0].0))
         <==> !(ordered[0].1 == U64_MAX && ordered[1].1 + FRESHNESS_MARGIN_MS > U64_MAX)
    ensures forall w :: Beats(m, w) ==> w == ordered[0].0
    ensures Freshest(ordered).Some? ==> Freshest(ordered).value == ordered[0].0
  {
    var w0, w1 := ordered[0], ordered[1];
    assert w0.0 in m && w1.0 in m && w0.0 != w1.0;
    forall v | v in m && v != w0.0 ensures m[v] <= w1.1 {
      var i :| 0 <= i < |ordered| && ordered[i].0 == v;
      assert i >= 1 && ordered[i].1 <= ordered[1].1;
    }
    forall w | Beats(m, w) ensures w == w0.0 {
      TopIsUnique(m, w, w0.0);
    }
  }

  /** Where it is not: two wallets both updated at the end of the range; whichever
      the sort puts first is chosen. */
  lemma TieAtTheEnd(a: string, b: string)
    requires a != b
    ensures var m := map[a := U64_MAX, b := U64_MAX];
            var ab, ba := [(a, U64_MAX), (b, U64_MAX)], [(b, U64_MAX), (a, U64_MAX)];
            && SortedListing(ab, m) && SortedListing(ba, m)
            && Freshest(ab) == Some(a) && Freshest(ba) == Some(b)
  {
    var m := map[a := U64_MAX, b := U64_MAX];
    var ab, ba := [(a, U64_MAX), (b, U64_MAX)], [(b, U64_MAX), (a, U64_MAX)];
    assert m.Keys == {a, b};
    assert ab[0].0 == a && ab[1].0 == b && ba[0].0 == b && ba[1].0 == a;
  }

  // ----- targets -----

  /** The wallet the event is scoped to; `ordered` is what sorting the deciding
      registrations' updates gave. */
  function ScopedWallet(deciding: seq<Registration>, ordered: seq<(string, nat)>): Option<string>
  {
    if deciding == [] then None
    else if |Wallets(deciding)| > 1 then Freshest(ordered)
    else Some(deciding[0].wallet)
  }

  predicate BundleFits(r: Registration, tokenType: string, bundle: Option<string>)
  {
    tokenType == "apns" && bundle.Some? ==> r.bundle == bundle
  }

  function MatchingRegistrations(all: seq<Registration>, e: Push, inbox: Inbox, tokenType: string,
                                 bundle: Option<string>, wallet: Option<string>): (s: seq<Registration>)
    ensures forall r :: r in s <==>
              && r in all && r.tokenType == tokenType && BundleFits(r, tokenType, bundle)
              && Allows(r, e, inbox) && wallet == Some(r.wallet)
  {
    if all == [] then []
    else
      var r := all[0];
      (if r.tokenType == tokenType && BundleFits(r, tokenType, bundle) && Allows(r, e, inbox) && wallet == Some(r.wallet)
       then [r] else [])
      + MatchingRegistrations(all[1..], e, inbox, tokenType, bundle, wallet)
  }

  /** The targets of one event for one kind of token, over the registrations in the
      order the map yields them. */
  function Targets(regs: seq<Registration>, e: Push, inbox: Inbox, tokenType: string,
                   bundle: Option<string>, ordered: seq<(string, nat)>): seq<Registration>
  {
    MatchingRegistrations(regs, e, inbox, tokenType, bundle, ScopedWallet(Deciding(regs, e, inbox), ordered))
  }

  /** Which registrations are targets: those of the scoped wallet and the asked kind
      of token, for the configured app if it is APNs, that watch the alias in their
      wallet's inbox or on a route from the sender. */
  lemma TargetsExactly(regs: seq<Registration>, e: Push, inbox: Inbox, tokenType: string,
                       bundle: Option<string>, ordered: seq<(string, nat)>, r: Registration)
    ensures r in Targets(regs, e, inbox, tokenType, bundle, ordered) <==>
              && r in regs && r.tokenType == tokenType
              && (tokenType != "apns" || bundle.None? || r.bundle == bundle)
              && (e.alias in inbox(r.wallet) || exists p :: p in r.routes && p.peer == e.sender && e.alias in p.aliases)
              && ScopedWallet(Deciding(regs, e, inbox), ordered) == Some(r.wallet)
  {
    var scope := ScopedWallet(Deciding(regs, e, inbox), ordered);
    assert r in MatchingRegistrations(regs, e, inbox, tokenType, bundle, scope) <==>
      && r in regs && r.tokenType == tokenType && BundleFits(r, tokenType, bundle)
      && Allows(r, e, inbox) && scope == Some(r.wallet);
  }

  /** What the sort may have produced, and updates clear of the end of the range. */
  ghost predicate Sorted(regs: seq<Registration>, ordered: seq<(string, nat)>, m: map<string, nat>)
  {
    && IsNewest(m, regs) && SortedListing(ordered, m)
    && (forall r :: r in regs ==> r.updatedAt + FRESHNESS_MARGIN_MS <= U64_MAX)
  }

  lemma WalletCount(deciding: seq<Registration>, m: map<string, nat>)
    requires IsNewest(m, deciding)
    ensures |m| == |Wallets(deciding)|
  {
    assert |m| == |m.Keys|;
  }

  lemma ScopeIsBeats(deciding: seq<Registration>, ordered: seq<(string, nat)>, m: map<string, nat>)
    requires Sorted(deciding, ordered, m) && deciding != []
    ensures var w := ScopedWallet(deciding, ordered);
            && (w.Some? ==> w.value in Wallets(deciding))
            && (|Wallets(deciding)| > 1 ==> forall v :: w == Some(v) <==> Beats(m, v))
            && (|Wallets(deciding)| <= 1 ==> Wallets(deciding) == {w.value} && w.Some?)
  {
    WalletCount(deciding, m);
    assert deciding[0] in deciding && deciding[0].wallet in Wallets(deciding);
    if |Wallets(deciding)| > 1 {
      UpdatesInRange(deciding, m);
      FreshestIsBeats(ordered, m);
    } else {
      OneWallet(Wallets(deciding), deciding[0].wallet);
    }
  }

  lemma OneWallet(ws: set<string>, w: string)
    requires w in ws && |ws| <= 1
    ensures ws == {w}
  {
    forall v | v in ws ensures v == w {
      if v != w {
        assert {v, w} <= ws;
        SubsetSize({v, w}, ws);
      }
    }
  }

  lemma {:induction false} SubsetSize(a: set<string>, b: set<string>)
    requires a <= b
    ensures |a| <= |b|
  {
    if a != {} {
      var x :| x in a;
      SubsetSize(a - {x}, b - {x});
    }
  }

  /** The same registrations in another order of iteration, sorted anew in whatever
      way the sort breaks ties, give the same wallet. */
  lemma SameScope(regs: seq<Registration>, regs': seq<Registration>, e: Push, inbox: Inbox,
                  ordered: seq<(string, nat)>, ordered': seq<(string, nat)>, m: map<string, nat>, m': map<string, nat>)
    requires forall r :: r in regs <==> r in regs'
    requires Sorted(Deciding(regs, e, inbox), ordered, m) && Sorted(Deciding(regs', e, inbox), ordered', m')
    ensures ScopedWallet(Deciding(regs, e, inbox), ordered) == ScopedWallet(Deciding(regs', e, inbox), ordered')
  {
    var d, d' := Deciding(regs, e, inbox), Deciding(regs', e, inbox);
    SameDeciding(regs, regs', e, inbox);
    NewestUnique(m, m', d, d');
    assert Wallets(d) == Wallets(d');
    assert d == [] <==> d' == [] by {
      if d != [] { assert d[0] in d; }
      if d' != [] { assert d'[0] in d'; }
    }
    if d != [] {
      ScopeIsBeats(d, ordered, m);
      ScopeIsBeats(d', ordered', m');
      if |Wallets(d)| <= 1 {
        assert ScopedWallet(d, ordered).value in Wallets(d');
      }
    }
  }

  /** The targets do not depend on the order of iteration or on ties either. */
  lemma OrderIndependent(regs: seq<Registration>, regs': seq<Registration>, e: Push, inbox: Inbox, tokenType: string,
                         bundle: Option<string>, ordered: seq<(string, nat)>, ordered': seq<(string, nat)>,
                         m: map<string, nat>, m': map<string, nat>)
    requires forall r :: r in regs <==> r in regs'
    requires Sorted(Deciding(regs, e, inbox), ordered, m) && Sorted(Deciding(regs', e, inbox), ordered', m')
    ensures forall r :: r in Targets(regs, e, inbox, tokenType, bundle, ordered)
                   <==> r in Targets(regs', e, inbox, tokenType, bundle, ordered')
  {
    SameScope(regs, regs', e, inbox, ordered, ordered', m, m');
  }

  /** Contextual push scope.  The APNs and the FCM targets of one event are looked up
      separately, each lookup iterating and sorting anew; all of them belong to one
      wallet whose address is not the sender's.  With several wallets in scope it is
      the one ahead of every other by at least the margin, and without such a wallet
      there are no targets. */
  lemma ContextualScope(regs: seq<Registration>, regs': seq<Registration>, e: Push, inbox: Inbox, bundle: Option<string>,
                        ordered: seq<(string, nat)>, ordered': seq<(string, nat)>, m: map<string, nat>, m': map<string, nat>)
    requires forall r :: r in regs <==> r in regs'
    requires Sorted(Deciding(regs, e, inbox), ordered, m) && Sorted(Deciding(regs', e, inbox), ordered', m')
    ensures var deciding := Deciding(regs, e, inbox);
            var wallet := ScopedWallet(deciding, ordered);
            && (forall r :: (r in Targets(regs, e, inbox, "apns", bundle, ordered)
                          || r in Targets(regs', e, inbox, "fcm", bundle, ordered')) ==>
                  wallet == Some(r.wallet) && r.wallet != e.sender)
            && (|Wallets(deciding)| > 1 ==> forall w :: wallet == Some(w) <==> Beats(m, w))
            && (wallet.Some? ==> exists r :: r in deciding && r.wallet == wallet.value)
  {
    var deciding := Deciding(regs, e, inbox);
    SameScope(regs, regs', e, inbox, ordered, ordered', m, m');
    if deciding != [] {
      ScopeIsBeats(deciding, ordered, m);
      forall r | r in deciding ensures r.wallet != e.sender {
        assert r in NonSender(regs, e, inbox);
      }
    }
  }

  lemma SameDeciding(regs: seq<Registration>, regs': seq<Registration>, e: Push, inbox: Inbox)
    requires forall r :: r in regs <==> r in regs'
    ensures forall r :: r in Deciding(regs, e, inbox) <==> r in Deciding(regs', e, inbox)
  {
    var a, b := NonSender(regs, e, inbox), NonSender(regs', e, inbox);
    if e.receiver.Some? {
      var x, y := AddressedTo(a, e.receiver.value), AddressedTo(b, e.receiver.value);
      assert forall r :: r in x <==> r in y;
      if x != [] { assert x[0] in y; }
      if y != [] { assert y[0] in x; }
    }
  }
}
