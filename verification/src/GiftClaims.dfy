/** Gift claims: each wallet and each device gets at most one payout, however many
    claims run at the same time and wherever they fail or are dropped. */
module GiftClaims {
  import opened Bytes

  datatype Status = Reserved | PayoutSubmitted | Completed | Failed | Rejected

  datatype Claim = Claim(id: string, wallet: string, device: string, txId: Option<string>, status: Status)

  type Claims = map<string, Claim>

  predicate ConsumesUniqueSlot(c: Claim)
  {
    c.txId.Some? || c.status == Reserved || c.status == PayoutSubmitted || c.status == Completed
  }

  predicate WalletBlocked(claims: Claims, wallet: string)
  {
    exists id :: id in claims && claims[id].wallet == wallet && ConsumesUniqueSlot(claims[id])
  }

  predicate DeviceBlocked(claims: Claims, device: string)
  {
    exists id :: id in claims && claims[id].device == device && ConsumesUniqueSlot(claims[id])
  }

  /** A record goes under its own id. */
  function Written(claims: Claims, record: Claim): Claims
  {
    claims[record.id := record]
  }

  datatype Refusal = WalletClaimed | DeviceClaimed

  datatype Reservation = Granted(record: Claim) | Refused(why: Refusal)

  /** The claim table, written under a lock. */
  class ClaimTable {
    var claims: Claims

    constructor ()
      ensures claims == map[]
    {
      claims := map[];
    }

    method Blocked(wallet: Option<string>, device: Option<string>) returns (r: bool)
      ensures r <==> exists id ::
                id in claims &&
                (var c := claims[id];
                 && (c.txId.Some? || c.status == Reserved || c.status == PayoutSubmitted || c.status == Completed)
                 && (wallet == Some(c.wallet) || device == Some(c.device)))
    {
      var left := claims.Keys;
      while left != {}
        invariant left <= claims.Keys
        invariant forall id :: id in claims && id !in left ==>
                    !(ConsumesUniqueSlot(claims[id]) &&
                      (wallet == Some(claims[id].wallet) || device == Some(claims[id].device)))
        decreases |left|
      {
        var id :| id in left;
        var c := claims[id];
        if ConsumesUniqueSlot(c) && (wallet == Some(c.wallet) || device == Some(c.device)) {
          return true;
        }
        left := left - {id};
      }
      return false;
    }

    /** Check and reservation are one step.  A claim of the wallet or the device is in
        the way when it was paid, or is reserved, submitted or completed. */
    method ReserveClaim(id: string, wallet: string, device: string) returns (r: Reservation)
      modifies this
      ensures r == Refused(WalletClaimed) <==>
                exists j :: j in old(claims) &&
                  (var c := old(claims)[j];
                   && (c.txId.Some? || c.status == Reserved || c.status == PayoutSubmitted || c.status == Completed)
                   && c.wallet == wallet)
      ensures r == Refused(DeviceClaimed) ==>
                exists j :: j in old(claims) &&
                  (var c := old(claims)[j];
                   && (c.txId.Some? || c.status == Reserved || c.status == PayoutSubmitted || c.status == Completed)
                   && c.device == device)
      ensures r.Granted? ==>
                forall j :: j in old(claims) && (old(claims)[j].wallet == wallet || old(claims)[j].device == device) ==>
                  old(claims)[j].txId.None? && (old(claims)[j].status == Failed || old(claims)[j].status == Rejected)
      ensures r.Granted? <==> !WalletBlocked(old(claims), wallet) && !DeviceBlocked(old(claims), device)
      ensures r.Refused? ==> claims == old(claims)
      ensures r.Granted? ==> r.record == Claim(id, wallet, device, None, Reserved) && claims == Written(old(claims), r.record)
    {
      var walletBlocked := Blocked(Some(wallet), None);
      if walletBlocked {
        return Refused(WalletClaimed);
      }
      var deviceBlocked := Blocked(None, Some(device));
      if deviceBlocked {
        return Refused(DeviceClaimed);
      }
      var record := Claim(id, wallet, device, None, Reserved);
      claims := claims[id := record];
      return Granted(record);
    }

    method PersistClaim(record: Claim)
      modifies this
      ensures claims == Written(old(claims), record)
    {
      claims := claims[record.id := record];
    }
  }

  // ----- concurrent claims -----

  /** Where a claim that obtained its reservation stands: its payout command runs;
      its record changed and is to be written; its payout is written and the device
      lock is being set. */
  datatype Phase = Paying | Writing(next: Option<Phase>) | Locking

  /** A running claim with its own copy of its record. */
  datatype Task = Task(record: Claim, phase: Phase)

  /** `paid` collects the claims whose payout command ever returned a transaction id. */
  datatype System = System(claims: Claims, tasks: map<string, Task>, paid: set<string>)

  datatype Action =
    | Reserve(id: string, wallet: string, device: string)
    | Reject(id: string, wallet: string, device: string)
    | PayoutOk(id: string, txId: string)
    | PayoutFailed(id: string)
    | Write(id: string)
    | LockOk(id: string)
    | LockFailed(id: string)
    | Drop(id: string)

  predicate InPhase(sys: System, id: string, phase: Phase)
  {
    id in sys.tasks && sys.tasks[id].phase == phase
  }

  /** Claim ids are fresh; every other step belongs to a running claim. */
  predicate Enabled(sys: System, a: Action)
  {
    match a
    case Reserve(id, _, _) => id !in sys.claims
    case Reject(id, _, _) => id !in sys.claims
    case PayoutOk(id, _) => InPhase(sys, id, Paying)
    case PayoutFailed(id) => InPhase(sys, id, Paying)
    case Write(id) => id in sys.tasks && sys.tasks[id].phase.Writing?
    case LockOk(id) => InPhase(sys, id, Locking)
    case LockFailed(id) => InPhase(sys, id, Locking)
    case Drop(id) => id in sys.tasks
  }

  function Perform(sys: System, a: Action): System
    requires Enabled(sys, a)
  {
    match a
    case Reserve(id, wallet, device) =>
      if WalletBlocked(sys.claims, wallet) || DeviceBlocked(sys.claims, device) then sys
      else
        var record := Claim(id, wallet, device, None, Reserved);
        sys.(claims := Written(sys.claims, record), tasks := sys.tasks[id := Task(record, Paying)])
    case Reject(id, wallet, device) =>
      sys.(claims := sys.claims[id := Claim(id, wallet, device, None, Rejected)])
    case PayoutOk(id, txId) =>
      var record := sys.tasks[id].record.(status := PayoutSubmitted, txId := Some(txId));
      sys.(tasks := sys.tasks[id := Task(record, Writing(Some(Locking)))], paid := sys.paid + {id})
    case PayoutFailed(id) =>
      sys.(tasks := sys.tasks[id := Task(sys.tasks[id].record.(status := Failed), Writing(None))])
    case Write(id) =>
      var t := sys.tasks[id];
      sys.(claims := Written(sys.claims, t.record),
           tasks := match t.phase.next
             case Some(p) => sys.tasks[id := Task(t.record, p)]
             case None => sys.tasks - {id})
    case LockOk(id) =>
      sys.(tasks := sys.tasks[id := Task(sys.tasks[id].record.(status := Completed), Writing(None))])
    case LockFailed(id) =>
      sys.(tasks := sys.tasks[id := Task(sys.tasks[id].record.(status := Failed), Writing(None))])
    case Drop(id) => sys.(tasks := sys.tasks - {id})
  }

  /** No two slot-consuming claims share a wallet or a device. */
  ghost predicate SlotsUnique(claims: Claims)
  {
    forall i, j ::
      (i in claims && j in claims && i != j && ConsumesUniqueSlot(claims[i]) && ConsumesUniqueSlot(claims[j])) ==>
        claims[i].wallet != claims[j].wallet && claims[i].device != claims[j].device
  }

  /** A running claim owns its slot until it gives it up for good. */
  ghost predicate Owns(sys: System, id: string)
    requires id in sys.tasks
  {
    var t := sys.tasks[id];
    && id in sys.claims && ConsumesUniqueSlot(sys.claims[id])
    && t.record.id == id && t.record.wallet == sys.claims[id].wallet && t.record.device == sys.claims[id].device
    && match t.phase
       case Paying => t.record.txId.None? && t.record.status == Reserved && id !in sys.paid
       case Locking => t.record.txId.Some? && id in sys.paid
       case Writing(next) =>
         && (next == None || next == Some(Locking))
         && (next.Some? ==> t.record.txId.Some?)
         && (id in sys.paid <==> t.record.txId.Some?)
  }

  ghost predicate Inv(sys: System)
  {
    && SlotsUnique(sys.claims)
    && (forall id :: id in sys.claims ==> sys.claims[id].id == id)
    && (forall id :: id in sys.tasks ==> Owns(sys, id))
    && (forall id :: id in sys.claims && sys.claims[id].txId.Some? ==> id in sys.paid)
    && (forall id :: id in sys.paid ==> id in sys.claims && ConsumesUniqueSlot(sys.claims[id]))
  }

  lemma ReserveKeeps(sys: System, id: string, wallet: string, device: string)
    requires Inv(sys) && id !in sys.claims
    ensures Inv(Perform(sys, Reserve(id, wallet, device)))
  {
    var sys' := Perform(sys, Reserve(id, wallet, device));
    if sys' != sys {
      forall j | j in sys'.tasks ensures Owns(sys', j) {
        if j != id { assert Owns(sys, j); }
      }
      forall i | i in sys.claims && ConsumesUniqueSlot(sys.claims[i])
        ensures sys.claims[i].wallet != wallet && sys.claims[i].device != device
      {
      }
    }
  }

  lemma WriteKeeps(sys: System, id: string)
    requires Inv(sys) && Enabled(sys, Write(id))
    ensures Inv(Perform(sys, Write(id)))
  {
    var sys' := Perform(sys, Write(id));
    assert Owns(sys, id);
    forall j | j in sys'.tasks ensures Owns(sys', j) {
      assert Owns(sys, j);
    }
  }

  /** Steps that change one running claim's own copy only. */
  lemma LocalKeeps(sys: System, a: Action)
    requires Inv(sys) && Enabled(sys, a) && (a.PayoutOk? || a.PayoutFailed? || a.LockOk? || a.LockFailed? || a.Drop?)
    ensures Inv(Perform(sys, a))
  {
    var sys' := Perform(sys, a);
    assert Owns(sys, a.id);
    forall j | j in sys'.tasks ensures Owns(sys', j) {
      assert Owns(sys, j);
    }
  }

  lemma RejectKeeps(sys: System, id: string, wallet: string, device: string)
    requires Inv(sys) && id !in sys.claims
    ensures Inv(Perform(sys, Reject(id, wallet, device)))
  {
    var sys' := Perform(sys, Reject(id, wallet, device));
    forall j | j in sys'.tasks ensures Owns(sys', j) {
      assert Owns(sys, j);
    }
  }

  /** Every step keeps the slots unique and every paid claim in its slot. */
  lemma StepKeeps(sys: System, a: Action)
    requires Inv(sys) && Enabled(sys, a)
    ensures Inv(Perform(sys, a))
  {
    if a.Reserve? {
      ReserveKeeps(sys, a.id, a.wallet, a.device);
    } else if a.Reject? {
      RejectKeeps(sys, a.id, a.wallet, a.device);
    } else if a.Write? {
      WriteKeeps(sys, a.id);
    } else {
      LocalKeeps(sys, a);
    }
  }

  ghost predicate Run(sys: System, actions: seq<Action>, end: System)
    decreases |actions|
  {
    if actions == [] then end == sys
    else Enabled(sys, actions[0]) && Run(Perform(sys, actions[0]), actions[1..], end)
  }

  lemma {:induction false} RunKeeps(sys: System, actions: seq<Action>, end: System)
    requires Inv(sys) && Run(sys, actions, end)
    ensures Inv(end)
    decreases |actions|
  {
    if actions != [] {
      StepKeeps(sys, actions[0]);
      RunKeeps(Perform(sys, actions[0]), actions[1..], end);
    }
  }

  /** Gift slots.  Under every interleaving of claims with fresh ids, whichever of
      them fail, lose their device lock after the payout or are dropped half-way:
      each wallet and each device has at most one slot-consuming record, at most one
      record with a transaction id, and at most one claim whose payout command ever
      succeeded. */
  lemma GiftSlots(actions: seq<Action>, end: System)
    requires Run(System(map[], map[], {}), actions, end)
    ensures SlotsUnique(end.claims)
    ensures forall id :: id in end.claims && end.claims[id].txId.Some? ==> id in end.paid
    ensures forall i, j :: i in end.paid && j in end.paid && i != j ==>
              && i in end.claims && j in end.claims
              && end.claims[i].wallet != end.claims[j].wallet && end.claims[i].device != end.claims[j].device
  {
    RunKeeps(System(map[], map[], {}), actions, end);
  }

  // ----- who may claim again -----

  /** What a run has done with claims: reservations granted, payout commands that
      failed, and failures written back. */
  datatype History = History(granted: set<string>, failed: set<string>, released: set<string>)

  function Recorded(sys: System, h: History, a: Action): History
    requires Enabled(sys, a)
  {
    match a
    case Reserve(id, _, _) => if id in Perform(sys, a).tasks then h.(granted := h.granted + {id}) else h
    case PayoutFailed(id) => h.(failed := h.failed + {id})
    case Write(id) => if id in h.failed then h.(released := h.released + {id}) else h
    case _ => h
  }

  ghost function HistoryOf(sys: System, h: History, actions: seq<Action>, end: System): History
    requires Run(sys, actions, end)
    decreases |actions|
  {
    if actions == [] then h
    else HistoryOf(Perform(sys, actions[0]), Recorded(sys, h, actions[0]), actions[1..], end)
  }

  /** A record is in the way exactly when its reservation was granted and not
      released. */
  ghost predicate SlotsExact(sys: System, h: History)
  {
    && h.released <= h.failed <= h.granted <= sys.claims.Keys
    && (forall id :: id in sys.tasks ==> id in h.granted && id !in h.released)
    && (forall id :: id in sys.tasks && id in h.failed ==>
          sys.tasks[id].phase == Writing(None) && sys.tasks[id].record.txId.None? && sys.tasks[id].record.status == Failed)
    && (forall id :: id in sys.tasks && sys.tasks[id].phase.Writing? && id !in h.failed ==>
          sys.tasks[id].record.txId.Some?)
    && (forall id :: id in sys.claims ==>
          (ConsumesUniqueSlot(sys.claims[id]) <==> id in h.granted && id !in h.released))
  }

  lemma NewExact(sys: System, h: History, a: Action)
    requires Inv(sys) && SlotsExact(sys, h) && Enabled(sys, a) && (a.Reserve? || a.Reject?)
    ensures SlotsExact(Perform(sys, a), Recorded(sys, h, a))
  {
    assert a.id !in sys.tasks;
  }

  lemma LocalExact(sys: System, h: History, a: Action)
    requires Inv(sys) && SlotsExact(sys, h) && Enabled(sys, a) && !a.Reserve? && !a.Reject? && !a.Write?
    ensures SlotsExact(Perform(sys, a), Recorded(sys, h, a))
  {
    assert Owns(sys, a.id);
  }

  lemma WriteExact(sys: System, h: History, id: string)
    requires Inv(sys) && SlotsExact(sys, h) && Enabled(sys, Write(id))
    ensures SlotsExact(Perform(sys, Write(id)), Recorded(sys, h, Write(id)))
  {
    assert Owns(sys, id);
    assert ConsumesUniqueSlot(sys.tasks[id].record) <==> id !in h.failed;
    var sys' := Perform(sys, Write(id));
    assert sys'.claims == sys.claims[id := sys.tasks[id].record];
  }

  lemma StepExact(sys: System, h: History, a: Action)
    requires Inv(sys) && SlotsExact(sys, h) && Enabled(sys, a)
    ensures SlotsExact(Perform(sys, a), Recorded(sys, h, a))
  {
    if a.Reserve? || a.Reject? {
      NewExact(sys, h, a);
    } else if a.Write? {
      WriteExact(sys, h, a.id);
    } else {
      LocalExact(sys, h, a);
    }
  }

  lemma {:induction false} RunExact(sys: System, h: History, actions: seq<Action>, end: System)
    requires Inv(sys) && SlotsExact(sys, h) && Run(sys, actions, end)
    ensures SlotsExact(end, HistoryOf(sys, h, actions, end))
    decreases |actions|
  {
    if actions != [] {
      StepKeeps(sys, actions[0]);
      StepExact(sys, h, actions[0]);
      RunExact(Perform(sys, actions[0]), Recorded(sys, h, actions[0]), actions[1..], end);
    }
  }

  /** After every run a new claim is granted exactly when each claim ever granted to
      its wallet or its device had its payout fail and the failure written back.
      So a claim dropped before that keeps its wallet and its device for good. */
  lemma MayClaimExactly(actions: seq<Action>, end: System, id: string, wallet: string, device: string)
    requires Run(System(map[], map[], {}), actions, end) && id !in end.claims
    ensures var h := HistoryOf(System(map[], map[], {}), History({}, {}, {}), actions, end);
            && h.granted <= end.claims.Keys
            && (id in Perform(end, Reserve(id, wallet, device)).tasks <==>
                  forall j :: j in h.granted && (end.claims[j].wallet == wallet || end.claims[j].device == device) ==>
                    j in h.released)
  {
    RunKeeps(System(map[], map[], {}), actions, end);
    RunExact(System(map[], map[], {}), History({}, {}, {}), actions, end);
    assert id !in end.tasks;
  }

  /** In particular a failed payout gives its wallet and its device back. */
  lemma FailedMayClaimAgain(sys: System, id: string, again: string, wallet: string, device: string)
    requires Inv(sys) && id !in sys.claims && again !in sys.claims && again != id
    requires id in Perform(sys, Reserve(id, wallet, device)).tasks
    ensures var sys1 := Perform(sys, Reserve(id, wallet, device));
            && Enabled(sys1, PayoutFailed(id)) && Enabled(Perform(sys1, PayoutFailed(id)), Write(id))
            && var sys3 := Perform(Perform(sys1, PayoutFailed(id)), Write(id));
               again in Perform(sys3, Reserve(again, wallet, device)).tasks
  {
    assert id !in sys.tasks;
  }

  // ----- what records tell -----

  /** What has happened to claims: payouts with their transaction ids, device locks
      set, payouts or locks that failed, and claims dropped. */
  datatype Deeds = Deeds(paid: map<string, string>, locked: set<string>, failed: set<string>, dropped: set<string>)

  function Noted(d: Deeds, a: Action): Deeds
  {
    match a
    case PayoutOk(id, txId) => d.(paid := d.paid[id := txId])
    case PayoutFailed(id) => d.(failed := d.failed + {id})
    case LockOk(id) => d.(locked := d.locked + {id})
    case LockFailed(id) => d.(failed := d.failed + {id})
    case Drop(id) => d.(dropped := d.dropped + {id})
    case _ => d
  }

  /** The record of a running claim says what its steps so far were. */
  predicate TaskTells(t: Task, d: Deeds, id: string)
  {
    && (id in d.paid <==> t.record.txId.Some?) && (id in d.paid ==> t.record.txId == Some(d.paid[id]))
    && (id in d.locked <==> t.record.status == Completed)
    && (id in d.failed <==> t.record.status == Failed)
    && (t.phase == Writing(None) <==> t.record.status == Completed || t.record.status == Failed)
    && (t.record.status == PayoutSubmitted <==> t.phase == Locking || t.phase == Writing(Some(Locking)))
    && (t.record.status == Reserved <==> t.phase == Paying)
  }

  /** The record of a claim that has ended says how, unless it was dropped. */
  predicate RecordTells(c: Claim, d: Deeds)
  {
    && (c.id in d.paid ==> c.txId == Some(d.paid[c.id]))
    && (c.id in d.locked <==> c.status == Completed)
    && (c.id in d.failed <==> c.status == Failed)
  }

  ghost predicate Tells(sys: System, d: Deeds)
  {
    && d.paid.Keys == sys.paid && d.locked + d.failed + d.dropped <= sys.claims.Keys
    && (forall id :: id in sys.tasks ==> id !in d.dropped && TaskTells(sys.tasks[id], d, id))
    && (forall id :: id in sys.claims && id !in sys.tasks && id !in d.dropped ==> RecordTells(sys.claims[id], d))
    && (forall id :: id in sys.claims && sys.claims[id].txId.Some? ==>
          id in d.paid && d.paid[id] == sys.claims[id].txId.value)
  }

  lemma OthersStay(sys: System, a: Action, id: string)
    requires Inv(sys) && Enabled(sys, a) && id != a.id
    ensures var sys' := Perform(sys, a);
            && (id in sys'.tasks <==> id in sys.tasks) && (id in sys.tasks ==> sys'.tasks[id] == sys.tasks[id])
            && (id in sys'.claims <==> id in sys.claims) && (id in sys.claims ==> sys'.claims[id] == sys.claims[id])
  {
    if a.Write? { assert Owns(sys, a.id); }
  }

  /** Steps of other claims change nothing about a claim. */
  lemma OthersTell(sys: System, d: Deeds, a: Action, id: string)
    requires Inv(sys) && Tells(sys, d) && Enabled(sys, a) && id != a.id
    ensures var sys', d' := Perform(sys, a), Noted(d, a);
            && (id in sys'.tasks ==> id !in d'.dropped && TaskTells(sys'.tasks[id], d', id))
            && (id in sys'.claims && id !in sys'.tasks && id !in d'.dropped ==> RecordTells(sys'.claims[id], d'))
            && (id in sys'.claims && sys'.claims[id].txId.Some? ==> id in d'.paid && d'.paid[id] == sys'.claims[id].txId.value)
  {
    OthersStay(sys, a, id);
    if id in sys.claims && id !in sys.tasks && id !in d.dropped { assert RecordTells(sys.claims[id], d); }
  }

  /** A claim's own first step. */
  lemma NewTells(sys: System, d: Deeds, a: Action)
    requires Inv(sys) && Tells(sys, d) && Enabled(sys, a) && (a.Reserve? || a.Reject?)
    ensures var sys', d', id := Perform(sys, a), Noted(d, a), a.id;
            && (id in sys'.tasks ==> id !in d'.dropped && TaskTells(sys'.tasks[id], d', id))
            && (id in sys'.claims && id !in sys'.tasks && id !in d'.dropped ==> RecordTells(sys'.claims[id], d'))
            && (id in sys'.claims && sys'.claims[id].txId.Some? ==> id in d'.paid && d'.paid[id] == sys'.claims[id].txId.value)
  {
    assert a.id !in sys.tasks && a.id !in sys.paid;
  }

  /** Its later steps. */
  lemma OwnTells(sys: System, d: Deeds, a: Action)
    requires Inv(sys) && Tells(sys, d) && Enabled(sys, a) && !a.Reserve? && !a.Reject?
    ensures var sys', d', id := Perform(sys, a), Noted(d, a), a.id;
            && (id in sys'.tasks ==> id !in d'.dropped && TaskTells(sys'.tasks[id], d', id))
            && (id in sys'.claims && id !in sys'.tasks && id !in d'.dropped ==> RecordTells(sys'.claims[id], d'))
            && (id in sys'.claims && sys'.claims[id].txId.Some? ==> id in d'.paid && d'.paid[id] == sys'.claims[id].txId.value)
  {
    assert Owns(sys, a.id) && TaskTells(sys.tasks[a.id], d, a.id);
  }

  lemma DeedsKnown(sys: System, d: Deeds, a: Action)
    requires Inv(sys) && Tells(sys, d) && Enabled(sys, a)
    ensures var sys', d' := Perform(sys, a), Noted(d, a);
            d'.paid.Keys == sys'.paid && d'.locked + d'.failed + d'.dropped <= sys'.claims.Keys
  {
    if a.id in sys.tasks { assert Owns(sys, a.id); }
  }

  lemma StepTells(sys: System, d: Deeds, a: Action)
    requires Inv(sys) && Tells(sys, d) && Enabled(sys, a)
    ensures Tells(Perform(sys, a), Noted(d, a))
  {
    var sys', d' := Perform(sys, a), Noted(d, a);
    DeedsKnown(sys, d, a);
    forall id
      ensures id in sys'.tasks ==> id !in d'.dropped && TaskTells(sys'.tasks[id], d', id)
      ensures id in sys'.claims && id !in sys'.tasks && id !in d'.dropped ==> RecordTells(sys'.claims[id], d')
      ensures id in sys'.claims && sys'.claims[id].txId.Some? ==> id in d'.paid && d'.paid[id] == sys'.claims[id].txId.value
    {
      if id != a.id {
        OthersTell(sys, d, a, id);
      } else if a.Reserve? || a.Reject? {
        NewTells(sys, d, a);
      } else {
        OwnTells(sys, d, a);
      }
    }
  }

  function DeedsOf(d: Deeds, actions: seq<Action>): Deeds
    decreases |actions|
  {
    if actions == [] then d else DeedsOf(Noted(d, actions[0]), actions[1..])
  }

  lemma {:induction false} RunTells(sys: System, d: Deeds, actions: seq<Action>, end: System)
    requires Inv(sys) && Tells(sys, d) && Run(sys, actions, end)
    ensures Tells(end, DeedsOf(d, actions))
    decreases |actions|
  {
    if actions != [] {
      StepKeeps(sys, actions[0]);
      StepTells(sys, d, actions[0]);
      RunTells(Perform(sys, actions[0]), Noted(d, actions[0]), actions[1..], end);
    }
  }

  lemma {:induction false} DeedsExactly(d: Deeds, actions: seq<Action>, id: string)
    ensures var d' := DeedsOf(d, actions);
            && (id in d'.locked <==> id in d.locked || LockOk(id) in actions)
            && (id in d'.failed <==> id in d.failed || PayoutFailed(id) in actions || LockFailed(id) in actions)
            && (id in d'.dropped <==> id in d.dropped || Drop(id) in actions)
    decreases |actions|
  {
    if actions != [] {
      DeedsExactly(Noted(d, actions[0]), actions[1..], id);
      assert forall a :: a in actions <==> a == actions[0] || a in actions[1..];
    }
  }

  lemma PaidStep(sys: System, d: Deeds, a: Action)
    requires Inv(sys) && d.paid.Keys == sys.paid && Enabled(sys, a)
    ensures Noted(d, a).paid.Keys == Perform(sys, a).paid
    ensures if a.PayoutOk? then a.id !in d.paid && Noted(d, a).paid == d.paid[a.id := a.txId] else Noted(d, a).paid == d.paid
  {
    if a.PayoutOk? { assert Owns(sys, a.id); }
  }

  /** A claim is paid at most once, so its payout is the one on record. */
  lemma {:induction false} PaidOnce(sys: System, d: Deeds, actions: seq<Action>, end: System, id: string)
    requires Inv(sys) && d.paid.Keys == sys.paid && Run(sys, actions, end)
    ensures var paid := DeedsOf(d, actions).paid;
            && (id in d.paid ==> id in paid && paid[id] == d.paid[id])
            && (id in d.paid ==> forall txId :: PayoutOk(id, txId) !in actions)
            && (id in paid && id !in d.paid ==> PayoutOk(id, paid[id]) in actions)
            && (forall txId :: PayoutOk(id, txId) in actions ==> id in paid && paid[id] == txId)
    decreases |actions|
  {
    if actions != [] {
      var a := actions[0];
      StepKeeps(sys, a);
      PaidStep(sys, d, a);
      PaidOnce(Perform(sys, a), Noted(d, a), actions[1..], end, id);
      assert forall x :: x in actions <==> x == a || x in actions[1..];
    }
  }

  /** After every run: a transaction id on record is one the payout command returned
      for that claim; and the record of a claim that has ended without being dropped is
      completed exactly when its device was locked, failed exactly when its payout or
      its lock failed, and holds its transaction id whenever it was paid. */
  lemma RecordsTell(actions: seq<Action>, end: System, id: string)
    requires Run(System(map[], map[], {}), actions, end) && id in end.claims
    ensures end.claims[id].txId.Some? ==> PayoutOk(id, end.claims[id].txId.value) in actions
    ensures id !in end.tasks && Drop(id) !in actions ==>
              && (end.claims[id].status == Completed <==> LockOk(id) in actions)
              && (end.claims[id].status == Failed <==> PayoutFailed(id) in actions || LockFailed(id) in actions)
              && (forall txId :: PayoutOk(id, txId) in actions ==> end.claims[id].txId == Some(txId))
  {
    var d := Deeds(map[], {}, {}, {});
    RunKeeps(System(map[], map[], {}), actions, end);
    RunTells(System(map[], map[], {}), d, actions, end);
    DeedsExactly(d, actions, id);
    PaidOnce(System(map[], map[], {}), d, actions, end, id);
    if id !in end.tasks && Drop(id) !in actions {
      assert RecordTells(end.claims[id], DeedsOf(d, actions));
    }
  }
}
