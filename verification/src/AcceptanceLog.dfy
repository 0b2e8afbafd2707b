/** The `tx_id_to_acceptance` partition: for each indexed transaction a byte
    value made of a 40-byte acceptance header followed by a log of writes that
    wait for the sender's address. */
module AcceptanceLog {
  import opened Bytes

  /** The seven message indexes a deferred write can name. */
  datatype Index =
    | HandshakeByReceiver
    | HandshakeBySender
    | ContextualMessageBySender
    | PaymentByReceiver
    | PaymentBySender
    | SelfStashByOwner
    | SelfStashByScope

  datatype Action = UpdateValueSender | InsertByKeySender

  datatype Entry = Entry(index: Index, action: Action, key: Bytes)

  datatype Header = Header(block: Hash, daa: nat)

  datatype Rec = Rec(header: Header, entries: seq<Entry>)

  datatype AcceptanceKey = AcceptanceKey(txId: TxId, receiver: Bytes)

  datatype LookupOutput = KeyDoesNotExist | KeyExistsNoEntries | KeyExistsWithEntries

  /** What reading a log can end in: all entries, an error (a byte that is no
      partition id or no action), or a panic (a slice out of bounds, or the id
      of a partition that is never deferred). */
  datatype Parsed = Parsed(entries: seq<Entry>) | Invalid | Aborts

  const HEADER_LEN: nat := 40
  const U64_LIMIT: nat := 0x1_0000_0000_0000_0000
  const LAST_PARTITION_ID: byte := 24

  function KeyLen(i: Index): nat
  {
    match i
    case HandshakeByReceiver => 34 + 8 + 32 + 1 + 32
    case HandshakeBySender => 34 + 8 + 32 + 34 + 1 + 32
    case ContextualMessageBySender => 34 + 16 + 8 + 32 + 34 + 1 + 32
    case PaymentByReceiver => 34 + 8 + 32 + 1 + 32
    case PaymentBySender => 34 + 8 + 32 + 34 + 1 + 32
    case SelfStashByOwner => 34 + 255 + 8 + 32 + 1 + 32
    case SelfStashByScope => 255 + 8 + 34 + 32 + 1 + 32
  }

  function IndexCode(i: Index): byte
  {
    match i
    case HandshakeByReceiver => 5
    case HandshakeBySender => 6
    case ContextualMessageBySender => 8
    case PaymentByReceiver => 9
    case PaymentBySender => 10
    case SelfStashByOwner => 15
    case SelfStashByScope => 17
  }

  function IndexOf(code: byte): (r: Option<Index>)
    ensures r.Some? ==> IndexCode(r.value) == code
    ensures r.None? ==> forall i :: IndexCode(i) != code
  {
    match code
    case 5 => Some(HandshakeByReceiver)
    case 6 => Some(HandshakeBySender)
    case 8 => Some(ContextualMessageBySender)
    case 9 => Some(PaymentByReceiver)
    case 10 => Some(PaymentBySender)
    case 15 => Some(SelfStashByOwner)
    case 17 => Some(SelfStashByScope)
    case _ => None
  }

  function ActionCode(a: Action): byte
  {
    match a
    case UpdateValueSender => 0
    case InsertByKeySender => 1
  }

  predicate WellFormed(e: Entry)
  {
    |e.key| == KeyLen(e.index)
  }

  predicate AllWellFormed(es: seq<Entry>)
  {
    forall i :: 0 <= i < |es| ==> WellFormed(es[i])
  }

  predicate ValidHeader(h: Header)
  {
    |h.block.bytes| == 32 && h.daa < U64_LIMIT
  }

  function ZeroHeader(): (h: Header)
    ensures ValidHeader(h)
  {
    Header(Hash(Zeros(32)), 0)
  }

  function EncodeHeader(h: Header): (r: Bytes)
    ensures |h.block.bytes| == 32 ==> |r| == HEADER_LEN
  {
    h.block.bytes + ToLe(h.daa, 8)
  }

  function DecodeHeader(b: Bytes): Header
    requires |b| >= HEADER_LEN
  {
    Header(Hash(b[..32]), LeValue(b[32..40]))
  }

  lemma HeaderRoundTrip(h: Header, rest: Bytes)
    requires ValidHeader(h)
    ensures DecodeHeader(EncodeHeader(h) + rest) == h
  {
    var b := EncodeHeader(h) + rest;
    assert b[..32] == h.block.bytes;
    assert b[32..40] == ToLe(h.daa, 8);
    assert Pow256(8) == U64_LIMIT by { Pow256Of8(); }
    ToLeValue(h.daa, 8);
  }

  lemma LeHead(s: Bytes)
    requires s != []
    ensures LeValue(s) == s[0] as nat + 256 * LeValue(s[1..])
  {
    var r := Reversed(s);
    assert r[|r| - 1] == s[0] && r[..|r| - 1] == Reversed(s[1..]);
  }

  /** The header byte for byte: 32 bytes of hash, then the score, lowest byte first. */
  lemma HeaderBytes(h: Header)
    requires ValidHeader(h)
    ensures var b := EncodeHeader(h);
            && |b| == 40 && b[..32] == h.block.bytes
            && h.daa == b[32] as nat + 0x100 * b[33] as nat + 0x1_0000 * b[34] as nat + 0x100_0000 * b[35] as nat
                      + 0x1_0000_0000 * b[36] as nat + 0x100_0000_0000 * b[37] as nat
                      + 0x1_0000_0000_0000 * b[38] as nat + 0x100_0000_0000_0000 * b[39] as nat
  {
    var b, s := EncodeHeader(h), ToLe(h.daa, 8);
    assert forall i :: 0 <= i < 8 ==> b[32 + i] == s[i];
    Pow256Of8();
    ToLeValue(h.daa, 8);
    LeEight(s);
  }

  lemma LeFour(s: Bytes)
    requires |s| >= 4
    ensures LeValue(s) == s[0] as nat + 0x100 * s[1] as nat + 0x1_0000 * s[2] as nat + 0x100_0000 * s[3] as nat
                        + 0x1_0000_0000 * LeValue(s[4..])
  {
    LeHead(s);
    LeHead(s[1..]);
    assert s[1..][1..] == s[2..];
    LeHead(s[2..]);
    assert s[2..][1..] == s[3..];
    LeHead(s[3..]);
    assert s[3..][1..] == s[4..];
  }

  lemma LeEight(s: Bytes)
    requires |s| == 8
    ensures LeValue(s) == s[0] as nat + 0x100 * s[1] as nat + 0x1_0000 * s[2] as nat + 0x100_0000 * s[3] as nat
                        + 0x1_0000_0000 * s[4] as nat + 0x100_0000_0000 * s[5] as nat
                        + 0x1_0000_0000_0000 * s[6] as nat + 0x100_0000_0000_0000 * s[7] as nat
  {
    LeFour(s);
    LeFour(s[4..]);
    assert s[4..][4..] == [];
    assert LeValue([]) == 0;
  }

  function EncodeEntry(e: Entry): Bytes
  {
    [IndexCode(e.index), ActionCode(e.action)] + e.key
  }

  /** An entry byte for byte: the partition's id, the action's, and the key. */
  lemma EntryBytes(e: Entry)
    ensures var b := EncodeEntry(e);
            && |b| == 2 + |e.key| && b[2..] == e.key
            && b[1] == (if e.action == UpdateValueSender then 0 else 1)
            && (e.index == HandshakeByReceiver <==> b[0] == 5) && (e.index == HandshakeBySender <==> b[0] == 6)
            && (e.index == ContextualMessageBySender <==> b[0] == 8) && (e.index == PaymentByReceiver <==> b[0] == 9)
            && (e.index == PaymentBySender <==> b[0] == 10) && (e.index == SelfStashByOwner <==> b[0] == 15)
            && (e.index == SelfStashByScope <==> b[0] == 17)
  {
  }

  function EncodeEntries(es: seq<Entry>): Bytes
  {
    if es == [] then [] else EncodeEntry(es[0]) + EncodeEntries(es[1..])
  }

  function EncodeRec(r: Rec): Bytes
  {
    EncodeHeader(r.header) + EncodeEntries(r.entries)
  }

  lemma {:induction false} EncodeConcat(a: seq<Entry>, b: seq<Entry>)
    ensures EncodeEntries(a + b) == EncodeEntries(a) + EncodeEntries(b)
  {
    if a == [] {
      assert a + b == b;
    } else {
      assert (a + b)[1..] == a[1..] + b;
      EncodeConcat(a[1..], b);
    }
  }

  lemma EncodeEmpty(es: seq<Entry>)
    ensures EncodeEntries(es) == [] <==> es == []
  {
  }

  /** Reading one entry off the front of a log. */
  function ParseStep(s: Bytes): Parsed
    requires s != []
  {
    match IndexOf(s[0])
    case None => if 1 <= s[0] <= LAST_PARTITION_ID then Aborts else Invalid
    case Some(index) =>
      if |s| < 2 then Aborts
      else if s[1] > 1 then Invalid
      else if |s| < 2 + KeyLen(index) then Aborts
      else
        var action := if s[1] == 0 then UpdateValueSender else InsertByKeySender;
        Parsed([Entry(index, action, s[2..2 + KeyLen(index)])])
  }

  lemma ParseStepShape(s: Bytes)
    requires s != [] && ParseStep(s).Parsed?
    ensures |ParseStep(s).entries| == 1 && WellFormed(ParseStep(s).entries[0])
    ensures 2 + KeyLen(ParseStep(s).entries[0].index) <= |s|
    ensures s == EncodeEntry(ParseStep(s).entries[0]) + s[2 + KeyLen(ParseStep(s).entries[0].index)..]
  {
  }

  function Prepend(done: seq<Entry>, p: Parsed): Parsed
  {
    match p
    case Parsed(es) => Parsed(done + es)
    case _ => p
  }

  /** Reading a whole log. */
  function ParseLog(s: Bytes): Parsed
    decreases |s|
  {
    if s == [] then Parsed([])
    else
      var first := ParseStep(s);
      if !first.Parsed? then first
      else
        ParseStepShape(s);
        Prepend(first.entries, ParseLog(s[2 + KeyLen(first.entries[0].index)..]))
  }

  /** A log that was written reads back as exactly what was written. */
  lemma {:induction false} LogRoundTrip(es: seq<Entry>)
    requires AllWellFormed(es)
    ensures ParseLog(EncodeEntries(es)) == Parsed(es)
  {
    if es != [] {
      var e, s := es[0], EncodeEntries(es);
      assert WellFormed(e);
      var len := KeyLen(e.index);
      assert s == EncodeEntry(e) + EncodeEntries(es[1..]);
      assert s[2..2 + len] == e.key && s[2 + len..] == EncodeEntries(es[1..]);
      assert ParseStep(s) == Parsed([e]);
      LogRoundTrip(es[1..]);
      assert es == [e] + es[1..];
    }
  }

  /** A byte string that reads as entries is the encoding of those entries. */
  lemma {:induction false} ParseIsInverse(s: Bytes)
    requires ParseLog(s).Parsed?
    ensures AllWellFormed(ParseLog(s).entries) && EncodeEntries(ParseLog(s).entries) == s
    decreases |s|
  {
    if s != [] {
      ParseStepShape(s);
      var e := ParseStep(s).entries[0];
      var rest := s[2 + KeyLen(e.index)..];
      ParseIsInverse(rest);
      var es := ParseLog(s).entries;
      assert es == [e] + ParseLog(rest).entries;
      assert es[1..] == ParseLog(rest).entries;
    }
  }

  // ----- logs that do not read -----

  /** What is left starts with a byte that is no partition id at all, or with the id
      of a deferred partition followed by a byte that is no action. */
  predicate BadByte(rest: Bytes)
  {
    && rest != []
    && (|| rest[0] == 0
        || rest[0] > 24
        || (rest[0] in {5, 6, 8, 9, 10, 15, 17} && |rest| >= 2 && rest[1] > 1))
  }

  lemma StepFails(s: Bytes)
    requires s != []
    ensures ParseStep(s).Invalid? <==> BadByte(s)
  {
  }

  lemma StepReads(e: Entry, tail: Bytes)
    requires WellFormed(e)
    ensures var s := EncodeEntry(e) + tail;
            ParseStep(s) == Parsed([e]) && s[2 + KeyLen(e.index)..] == tail
  {
    var s := EncodeEntry(e) + tail;
    assert s[2..2 + KeyLen(e.index)] == e.key;
  }

  /** A log that goes wrong after `es` goes wrong as what is left does. */
  lemma {:induction false} LogFails(es: seq<Entry>, rest: Bytes)
    requires AllWellFormed(es) && rest != [] && !ParseStep(rest).Parsed?
    ensures ParseLog(EncodeEntries(es) + rest) == ParseStep(rest)
  {
    if es == [] {
      assert [] + rest == rest;
    } else {
      var e := es[0];
      assert WellFormed(e);
      var tail := EncodeEntries(es[1..]) + rest;
      Associate(EncodeEntry(e), EncodeEntries(es[1..]), rest);
      StepReads(e, tail);
      LogFails(es[1..], rest);
    }
  }

  lemma EncodeFirst(e: Entry, es: seq<Entry>)
    ensures EncodeEntries([e] + es) == EncodeEntry(e) + EncodeEntries(es)
  {
    assert ([e] + es)[1..] == es;
  }

  /** How far a log that does not read does read. */
  lemma {:induction false} ReadsUpTo(s: Bytes) returns (es: seq<Entry>, rest: Bytes)
    requires !ParseLog(s).Parsed?
    ensures AllWellFormed(es) && rest != [] && s == EncodeEntries(es) + rest
    ensures ParseStep(rest) == ParseLog(s)
    decreases |s|
  {
    if !ParseStep(s).Parsed? {
      es, rest := [], s;
      assert [] + s == s;
    } else {
      ParseStepShape(s);
      var e := ParseStep(s).entries[0];
      var tail := s[2 + KeyLen(e.index)..];
      es, rest := ReadsUpTo(tail);
      Associate(EncodeEntry(e), EncodeEntries(es), rest);
      EncodeFirst(e, es);
      es := [e] + es;
    }
  }

  /** Which logs read, which are an error and, with neither, which panic. */
  lemma ReadsExactly(s: Bytes)
    ensures ParseLog(s).Parsed? <==> exists es :: AllWellFormed(es) && s == EncodeEntries(es)
    ensures ParseLog(s).Invalid? <==>
              exists es, rest :: AllWellFormed(es) && s == EncodeEntries(es) + rest && BadByte(rest)
  {
    if ParseLog(s).Parsed? { ParseIsInverse(s); }
    if es :| AllWellFormed(es) && s == EncodeEntries(es) { LogRoundTrip(es); }
    if ParseLog(s).Invalid? {
      var es, rest := ReadsUpTo(s);
      StepFails(rest);
    }
    if es, rest :| AllWellFormed(es) && s == EncodeEntries(es) + rest && BadByte(rest) {
      StepFails(rest);
      LogFails(es, rest);
    }
  }

  // ----- the stored value under the partition's three updates -----

  function InsertedValue(prior: Option<Bytes>, es: seq<Entry>): Bytes
  {
    match prior
    case None => EncodeHeader(ZeroHeader()) + EncodeEntries(es)
    case Some(v) => v + EncodeEntries(es)
  }

  function AcceptedValue(v: Bytes, h: Header): Bytes
    requires |v| >= HEADER_LEN
  {
    EncodeHeader(h) + v[HEADER_LEN..]
  }

  function ResolvedValue(v: Bytes): Bytes
    requires |v| >= HEADER_LEN
  {
    v[..HEADER_LEN]
  }

  predicate Matches(v: Bytes, r: Rec)
  {
    ValidHeader(r.header) && AllWellFormed(r.entries) && v == EncodeRec(r)
  }

  /** The three updates act on a stored value as their view does on its record. */
  lemma MatchesParts(v: Bytes, r: Rec)
    requires Matches(v, r)
    ensures |v| >= HEADER_LEN && (|v| > HEADER_LEN <==> r.entries != [])
    ensures v[..HEADER_LEN] == EncodeHeader(r.header)
    ensures v[HEADER_LEN..] == EncodeEntries(r.entries)
  {
    EncodeEmpty(r.entries);
    var h, es := EncodeHeader(r.header), EncodeEntries(r.entries);
    assert v == h + es && |h| == HEADER_LEN;
  }

  lemma MatchesAppend(v: Bytes, r: Rec, es: seq<Entry>)
    requires Matches(v, r) && AllWellFormed(es)
    ensures Matches(v + EncodeEntries(es), r.(entries := r.entries + es))
  {
    EncodeConcat(r.entries, es);
    Associate(EncodeHeader(r.header), EncodeEntries(r.entries), EncodeEntries(es));
    WellFormedConcat(r.entries, es);
  }

  lemma Associate(a: Bytes, b: Bytes, c: Bytes)
    ensures (a + b) + c == a + (b + c)
  {
  }

  lemma WellFormedConcat(a: seq<Entry>, b: seq<Entry>)
    requires AllWellFormed(a) && AllWellFormed(b)
    ensures AllWellFormed(a + b)
  {
  }

  lemma MatchesHeader(v: Bytes, r: Rec, h: Header)
    requires Matches(v, r) && ValidHeader(h)
    ensures |v| >= HEADER_LEN && Matches(AcceptedValue(v, h), r.(header := h))
  {
    MatchesParts(v, r);
  }

  lemma MatchesResolved(v: Bytes, r: Rec)
    requires Matches(v, r)
    ensures |v| >= HEADER_LEN && Matches(v[..HEADER_LEN], r.(entries := []))
  {
    MatchesParts(v, r);
  }

  datatype LogOp = Append(entries: seq<Entry>) | Accept(header: Header) | Resolve

  predicate ValidOp(op: LogOp)
  {
    match op
    case Append(es) => AllWellFormed(es)
    case Accept(h) => ValidHeader(h)
    case Resolve => true
  }

  /** The bytes after a history of operations; an acceptance update or a resolution
      of a key that does not exist changes nothing. */
  function ValueAfter(ops: seq<LogOp>): (r: Option<Bytes>)
    requires forall i :: 0 <= i < |ops| ==> ValidOp(ops[i])
    ensures r.Some? ==> |r.value| >= HEADER_LEN
  {
    if ops == [] then None
    else
      var before := ValueAfter(ops[..|ops| - 1]);
      match ops[|ops| - 1]
      case Append(es) => Some(InsertedValue(before, es))
      case Accept(h) =>
        assert ValidOp(ops[|ops| - 1]);
        if before.None? then None else Some(AcceptedValue(before.value, h))
      case Resolve => if before.None? then None else Some(ResolvedValue(before.value))
  }

  /** Everything appended since the last resolution, in order. */
  function Appended(ops: seq<LogOp>): seq<Entry>
  {
    if ops == [] then []
    else
      match ops[|ops| - 1]
      case Append(es) => Appended(ops[..|ops| - 1]) + es
      case Accept(_) => Appended(ops[..|ops| - 1])
      case Resolve => []
  }

  predicate Exists(ops: seq<LogOp>)
  {
    exists i :: 0 <= i < |ops| && ops[i].Append?
  }

  /** The header of the last acceptance update since the key came into being. */
  function LatestHeader(ops: seq<LogOp>): Header
  {
    if ops == [] then ZeroHeader()
    else
      var op := ops[|ops| - 1];
      if op.Accept? && Exists(ops[..|ops| - 1]) then op.header else LatestHeader(ops[..|ops| - 1])
  }

  /** Any history of insertion batches, acceptance updates and resolutions: the
      value exists exactly when something was inserted, its first 40 bytes are the
      latest header, and its log reads back as the entries inserted since the last
      resolution, in order. */
  lemma {:induction false} HistoryRoundTrip(ops: seq<LogOp>)
    requires forall i :: 0 <= i < |ops| ==> ValidOp(ops[i])
    ensures ValueAfter(ops).Some? <==> Exists(ops)
    ensures Exists(ops) ==>
              var v := ValueAfter(ops).value;
              && DecodeHeader(v) == LatestHeader(ops)
              && v[..HEADER_LEN] == EncodeHeader(LatestHeader(ops))
              && ParseLog(v[HEADER_LEN..]) == Parsed(Appended(ops))
  {
    HistoryValue(ops);
    if Exists(ops) {
      var v := ValueAfter(ops).value;
      HeaderRoundTrip(LatestHeader(ops), EncodeEntries(Appended(ops)));
      MatchesParts(v, Rec(LatestHeader(ops), Appended(ops)));
      LogRoundTrip(Appended(ops));
    }
  }

  lemma {:induction false} NothingYet(ops: seq<LogOp>)
    requires !Exists(ops)
    ensures LatestHeader(ops) == ZeroHeader() && Appended(ops) == []
  {
    if ops != [] { NothingYet(ops[..|ops| - 1]); }
  }

  lemma {:induction false} HistoryValue(ops: seq<LogOp>)
    requires forall i :: 0 <= i < |ops| ==> ValidOp(ops[i])
    ensures ValueAfter(ops).Some? <==> Exists(ops)
    ensures Exists(ops) ==> Matches(ValueAfter(ops).value, Rec(LatestHeader(ops), Appended(ops)))
  {
    if ops != [] {
      var before, op := ops[..|ops| - 1], ops[|ops| - 1];
      HistoryValue(before);
      assert ValidOp(op);
      assert Exists(before) ==> Exists(ops);
      assert Exists(ops) ==> Exists(before) || op.Append?;
      var r := Rec(LatestHeader(before), Appended(before));
      if Exists(before) {
        var v := ValueAfter(before).value;
        match op {
          case Append(es) => MatchesAppend(v, r, es);
          case Accept(h) => MatchesHeader(v, r, h);
          case Resolve => MatchesResolved(v, r);
        }
      } else {
        NothingYet(before);
        if op.Append? { assert Exists(ops) && Appended(ops) == op.entries; }
      }
    }
  }

  // ----- the partition as a view from transaction ids to records -----

  type View = map<TxId, Rec>

  function Inserted(m: View, t: TxId, es: seq<Entry>): View
  {
    if t in m then m[t := m[t].(entries := m[t].entries + es)] else m[t := Rec(ZeroHeader(), es)]
  }

  function Accepted(m: View, t: TxId, h: Header): View
  {
    if t in m then m[t := m[t].(header := h)] else m
  }

  function Resolved(m: View, t: TxId): View
  {
    if t in m then m[t := m[t].(entries := [])] else m
  }

  /** The stored bytes represent the view: one key per transaction, each value
      the encoding of that transaction's record. */
  ghost predicate Represents(values: map<AcceptanceKey, Bytes>, view: View)
  {
    && (forall k, k' :: k in values && k' in values && k.txId == k'.txId ==> k == k')
    && (forall k :: k in values ==> k.txId in view && Matches(values[k], view[k.txId]))
    && (forall t :: t in view ==> exists k :: k in values && k.txId == t)
  }

  /** No other key has the same transaction id. */
  ghost predicate OnlyKey(values: map<AcceptanceKey, Bytes>, k: AcceptanceKey)
  {
    forall k' :: k' in values && k'.txId == k.txId ==> k' == k
  }

  lemma RepresentsUpdate(values: map<AcceptanceKey, Bytes>, view: View, k: AcceptanceKey, v: Bytes, r: Rec)
    requires Represents(values, view) && Matches(v, r)
    requires OnlyKey(values, k)
    ensures Represents(values[k := v], view[k.txId := r])
  {
    var values', view' := values[k := v], view[k.txId := r];
    forall t | t in view' ensures exists k' :: k' in values' && k'.txId == t {
      if t == k.txId {
        assert k in values';
      } else {
        var k' :| k' in values && k'.txId == t;
        assert k' in values';
      }
    }
  }

  function Lookup(values: map<AcceptanceKey, Bytes>, k: AcceptanceKey): Option<Bytes>
  {
    if k in values then Some(values[k]) else None
  }

  function InsertedValues(values: map<AcceptanceKey, Bytes>, k: AcceptanceKey, es: seq<Entry>): (r: map<AcceptanceKey, Bytes>)
    ensures r.Keys == values.Keys + {k}
  {
    values[k := InsertedValue(Lookup(values, k), es)]
  }

  lemma InsertRepresents(values: map<AcceptanceKey, Bytes>, view: View, k: AcceptanceKey, es: seq<Entry>)
    requires Represents(values, view) && AllWellFormed(es)
    requires OnlyKey(values, k)
    ensures Represents(InsertedValues(values, k, es), Inserted(view, k.txId, es))
  {
    if k in values {
      MatchesAppend(values[k], view[k.txId], es);
      RepresentsUpdate(values, view, k, values[k] + EncodeEntries(es), view[k.txId].(entries := view[k.txId].entries + es));
    } else {
      assert k.txId !in view;
      var r := Rec(ZeroHeader(), es);
      RepresentsUpdate(values, view, k, EncodeRec(r), r);
    }
  }

  function AcceptedValues(values: map<AcceptanceKey, Bytes>, k: AcceptanceKey, h: Header): (r: map<AcceptanceKey, Bytes>)
    requires k in values && |values[k]| >= HEADER_LEN
    ensures r.Keys == values.Keys
  {
    values[k := AcceptedValue(values[k], h)]
  }

  lemma AcceptRepresents(values: map<AcceptanceKey, Bytes>, view: View, k: AcceptanceKey, h: Header)
    requires Represents(values, view) && ValidHeader(h) && k in values
    ensures |values[k]| >= HEADER_LEN && (|values[k]| > HEADER_LEN <==> view[k.txId].entries != [])
    ensures Represents(AcceptedValues(values, k, h), Accepted(view, k.txId, h))
  {
    var r := view[k.txId];
    MatchesParts(values[k], r);
    MatchesHeader(values[k], r, h);
    RepresentsUpdate(values, view, k, AcceptedValue(values[k], h), r.(header := h));
  }

  function ResolvedValues(values: map<AcceptanceKey, Bytes>, k: AcceptanceKey): (r: map<AcceptanceKey, Bytes>)
    requires k in values && |values[k]| >= HEADER_LEN
    ensures r.Keys == values.Keys
  {
    values[k := ResolvedValue(values[k])]
  }

  lemma ResolveRepresents(values: map<AcceptanceKey, Bytes>, view: View, k: AcceptanceKey)
    requires Represents(values, view) && k in values
    ensures |values[k]| >= HEADER_LEN
    ensures ParseLog(values[k][HEADER_LEN..]) == Parsed(view[k.txId].entries)
    ensures Represents(ResolvedValues(values, k), Resolved(view, k.txId))
  {
    var v, r := values[k], view[k.txId];
    MatchesParts(v, r);
    LogRoundTrip(r.entries);
    assert EncodeHeader(r.header) + [] == v[..HEADER_LEN];
    RepresentsUpdate(values, view, k, v[..HEADER_LEN], r.(entries := []));
  }

  class TxIdToAcceptance {
    var values: map<AcceptanceKey, Bytes>
    ghost var view: View

    ghost predicate Valid()
      reads this
    {
      Represents(values, view)
    }

    constructor ()
      ensures Valid() && view == map[]
    {
      values := map[];
      view := map[];
    }

    method InsertWtx(k: AcceptanceKey, entries: seq<Entry>)
      requires Valid() && AllWellFormed(entries)
      requires OnlyKey(values, k)
      modifies this
      ensures Valid() && view == Inserted(old(view), k.txId, entries)
      ensures values.Keys == old(values.Keys) + {k}
    {
      values := InsertValue(values, view, k, entries);
      view := Inserted(view, k.txId, entries);
    }

    /** Append to the value under `k`, or start one with a zero header. */
    static method InsertValue(values: map<AcceptanceKey, Bytes>, ghost view: View, k: AcceptanceKey, entries: seq<Entry>)
      returns (r: map<AcceptanceKey, Bytes>)
      requires Represents(values, view) && AllWellFormed(entries) && OnlyKey(values, k)
      ensures Represents(r, Inserted(view, k.txId, entries)) && r.Keys == values.Keys + {k}
    {
      InsertRepresents(values, view, k, entries);
      r := InsertedValues(values, k, entries);
    }

    method UpdateAcceptanceWtx(k: AcceptanceKey, block: Hash, daa: nat) returns (r: LookupOutput)
      requires Valid() && ValidHeader(Header(block, daa))
      modifies this
      ensures Valid() && values.Keys == old(values.Keys)
      ensures r == KeyDoesNotExist <==> k !in old(values)
      ensures k !in old(values) ==> view == old(view)
      ensures k in old(values) ==> view == Accepted(old(view), k.txId, Header(block, daa))
      ensures k in old(values) ==> (r == KeyExistsWithEntries <==> old(view[k.txId].entries) != [])
    {
      if k !in values {
        return KeyDoesNotExist;
      }
      var h := Header(block, daa);
      AcceptRepresents(values, view, k, h);
      r := if |values[k]| > HEADER_LEN then KeyExistsWithEntries else KeyExistsNoEntries;
      values := AcceptedValues(values, k, h);
      view := Accepted(view, k.txId, h);
    }

    /** The loop that consumes a log; total on byte strings. */
    static method ParseEntries(log: Bytes) returns (r: Parsed)
      ensures r == ParseLog(log)
    {
      var rest, done := log, [];
      while rest != []
        invariant ParseLog(log) == Prepend(done, ParseLog(rest))
        decreases |rest|
      {
        var index := IndexOf(rest[0]);
        if index.None? {
          return if 1 <= rest[0] <= LAST_PARTITION_ID then Aborts else Invalid;
        }
        var len := KeyLen(index.value);
        if |rest| < 2 {
          return Aborts;
        }
        if rest[1] > 1 {
          return Invalid;
        }
        if |rest| < 2 + len {
          return Aborts;
        }
        var action := if rest[1] == 0 then UpdateValueSender else InsertByKeySender;
        var e := Entry(index.value, action, rest[2..2 + len]);
        assert ParseStep(rest) == Parsed([e]);
        ghost var p := ParseLog(rest[2 + len..]);
        assert ParseLog(rest) == Prepend([e], p);
        assert p.Parsed? ==> done + ([e] + p.entries) == (done + [e]) + p.entries;
        done := done + [e];
        rest := rest[2 + len..];
      }
      assert done + [] == done;
      r := Parsed(done);
    }

    method ResolveEntriesWtx(k: AcceptanceKey) returns (found: bool, entries: seq<Entry>)
      requires Valid()
      modifies this
      ensures Valid() && values.Keys == old(values.Keys)
      ensures found <==> k in old(values)
      ensures found ==> view == Resolved(old(view), k.txId) && entries == old(view[k.txId].entries)
      ensures !found ==> view == old(view) && entries == []
    {
      if k !in values {
        return false, [];
      }
      ResolveRepresents(values, view, k);
      var p := ParseEntries(values[k][HEADER_LEN..]);
      values := ResolvedValues(values, k);
      view := Resolved(view, k.txId);
      return true, p.entries;
    }
  }
}
