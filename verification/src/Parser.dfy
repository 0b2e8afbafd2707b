/** The payload grammar: `ciph_msg:` followed by an untagged sealed message, or by
    `1:`, a tag and tag-specific fields separated by colons. */
module Parser {
  import opened Bytes

  datatype Operation =
    | Untagged(sealed: Bytes)
    | Contextual(alias: Bytes, sealed: Bytes)
    | Payment(sealed: Bytes)
    | SelfStash(key: Option<Bytes>, sealed: Bytes)
    | HandshakeV2(sealed: Bytes)

  const COLON: byte := 0x3A
  /** `ciph_msg:` */
  const PROTOCOL: Bytes := [0x63, 0x69, 0x70, 0x68, 0x5F, 0x6D, 0x73, 0x67, 0x3A]
  /** `1:` */
  const VERSION_1: Bytes := [0x31, 0x3A]
  /** `payment:` */
  const PAYMENT: Bytes := [0x70, 0x61, 0x79, 0x6D, 0x65, 0x6E, 0x74, 0x3A]
  /** `pay:` */
  const PAY: Bytes := [0x70, 0x61, 0x79, 0x3A]
  /** `handshake:` */
  const HANDSHAKE: Bytes := [0x68, 0x61, 0x6E, 0x64, 0x73, 0x68, 0x61, 0x6B, 0x65, 0x3A]
  /** `comm:` */
  const COMM: Bytes := [0x63, 0x6F, 0x6D, 0x6D, 0x3A]
  /** `self_stash:` */
  const SELF_STASH: Bytes := [0x73, 0x65, 0x6C, 0x66, 0x5F, 0x73, 0x74, 0x61, 0x73, 0x68, 0x3A]

  function StripPrefix(prefix: Bytes, s: Bytes): (r: Option<Bytes>)
    ensures r.Some? <==> prefix <= s
    ensures r.Some? ==> s == prefix + r.value
  {
    if prefix <= s then Some(s[|prefix|..]) else None
  }

  function Position(s: Bytes, b: byte): (r: Option<nat>)
    ensures r.None? <==> b !in s
    ensures r.Some? ==> r.value < |s| && s[r.value] == b && b !in s[..r.value]
  {
    if s == [] then None
    else if s[0] == b then Some(0)
    else
      match Position(s[1..], b)
      case None => None
      case Some(i) =>
        assert s[..i + 1] == [s[0]] + s[1..][..i];
        Some(i + 1)
  }

  datatype Tag = PaymentTag | LegacyTag | HandshakeTag | CommTag | StashTag

  function TagBytes(tag: Tag): Bytes
  {
    match tag
    case PaymentTag => PAYMENT
    case LegacyTag => PAY
    case HandshakeTag => HANDSHAKE
    case CommTag => COMM
    case StashTag => SELF_STASH
  }

  function TagOf(body: Bytes): (tag: Option<Tag>)
    ensures tag.Some? ==> TagBytes(tag.value) <= body
  {
    if PAYMENT <= body then Some(PaymentTag)
    else if PAY <= body then Some(LegacyTag)
    else if HANDSHAKE <= body then Some(HandshakeTag)
    else if COMM <= body then Some(CommTag)
    else if SELF_STASH <= body then Some(StashTag)
    else None
  }

  function ParseFields(tag: Tag, rest: Bytes): Option<Operation>
  {
    match tag
    case PaymentTag => Some(Payment(rest))
    case LegacyTag => Some(Payment(rest))
    case HandshakeTag => Some(HandshakeV2(rest))
    case CommTag =>
      (match Position(rest, COLON)
       case None => None
       case Some(i) => Some(Contextual(rest[..i], rest[i + 1..])))
    case StashTag =>
      (match Position(rest, COLON)
       case None => Some(SelfStash(None, rest))
       case Some(i) => Some(SelfStash(Some(rest[..i]), rest[i + 1..])))
  }

  /** Tag and fields after `ciph_msg:1:`. */
  function ParseBody(body: Bytes): Option<Operation>
  {
    match TagOf(body)
    case None => None
    case Some(tag) => ParseFields(tag, body[|TagBytes(tag)|..])
  }

  function Parse(payload: Bytes): Option<Operation>
  {
    match StripPrefix(PROTOCOL, payload)
    case None => None
    case Some(rest) =>
      if rest == [] then None
      else
        match StripPrefix(VERSION_1, rest)
        case None => Some(Untagged(rest))
        case Some(body) => ParseBody(body)
  }

  // ----- the documented encoding -----

  function TagFor(op: Operation): Tag
    requires !op.Untagged?
  {
    match op
    case Payment(_) => PaymentTag
    case HandshakeV2(_) => HandshakeTag
    case Contextual(_, _) => CommTag
    case SelfStash(_, _) => StashTag
  }

  function EncodeFields(op: Operation): Bytes
  {
    match op
    case Contextual(alias, s) => alias + ([COLON] + s)
    case SelfStash(Some(key), s) => key + ([COLON] + s)
    case _ => op.sealed
  }

  function EncodeBody(op: Operation): Bytes
    requires !op.Untagged?
  {
    TagBytes(TagFor(op)) + EncodeFields(op)
  }

  function Encode(op: Operation): Bytes
  {
    match op
    case Untagged(s) => PROTOCOL + s
    case _ => PROTOCOL + (VERSION_1 + EncodeBody(op))
  }

  /** Operations whose fields do not run into the grammar's delimiters. */
  predicate Encodable(op: Operation)
  {
    match op
    case Untagged(s) => s != [] && !(VERSION_1 <= s)
    case Contextual(alias, _) => COLON !in alias
    case SelfStash(None, s) => COLON !in s
    case SelfStash(Some(key), _) => COLON !in key
    case _ => true
  }

  lemma {:induction false} PositionAfter(a: Bytes, s: Bytes)
    requires COLON !in a
    ensures Position(a + ([COLON] + s), COLON) == Some(|a|)
  {
    var t := a + ([COLON] + s);
    if a == [] {
      assert t[0] == COLON;
    } else {
      assert t[0] == a[0] && t[1..] == a[1..] + ([COLON] + s);
      PositionAfter(a[1..], s);
    }
  }

  /** Splitting at the first colon undoes joining with one. */
  lemma SplitAtColon(a: Bytes, s: Bytes)
    requires COLON !in a
    ensures var t := a + ([COLON] + s);
            Position(t, COLON) == Some(|a|) && t[..|a|] == a && t[|a| + 1..] == s
  {
    PositionAfter(a, s);
    var t := a + ([COLON] + s);
    assert t[|a| + 1..] == s;
  }

  /** No tag is a prefix of another, so a tagged body is recognised by its tag. */
  lemma TagOfTagged(tag: Tag, rest: Bytes)
    ensures TagOf(TagBytes(tag) + rest) == Some(tag)
  {
    var t := TagBytes(tag);
    var body := t + rest;
    assert |t| >= 4 && body[0] == t[0] && body[3] == t[3];
    StartsWith(PAYMENT, body);
    StartsWith(PAY, body);
    StartsWith(HANDSHAKE, body);
    StartsWith(COMM, body);
  }

  lemma StartsWith(tag: Bytes, body: Bytes)
    requires |tag| > 3 && |body| > 3
    ensures tag <= body ==> body[0] == tag[0] && body[3] == tag[3]
  {
  }

  lemma FieldsRoundTrip(op: Operation)
    requires Encodable(op) && !op.Untagged?
    ensures ParseFields(TagFor(op), EncodeFields(op)) == Some(op)
  {
    match op {
      case Contextual(alias, s) => SplitAtColon(alias, s);
      case SelfStash(Some(key), s) => SplitAtColon(key, s);
      case _ =>
    }
  }

  lemma BodyRoundTrip(op: Operation)
    requires Encodable(op) && !op.Untagged?
    ensures ParseBody(EncodeBody(op)) == Some(op)
  {
    var tag, rest := TagBytes(TagFor(op)), EncodeFields(op);
    TagOfTagged(TagFor(op), rest);
    FieldsRoundTrip(op);
    assert (tag + rest)[|tag|..] == rest;
  }

  /** The legacy payment tag was used. */
  predicate Legacy(payload: Bytes)
  {
    PROTOCOL + (VERSION_1 + PAY) <= payload
  }

  lemma FieldsInverse(tag: Tag, rest: Bytes)
    requires ParseFields(tag, rest).Some?
    ensures var op := ParseFields(tag, rest).value;
            && !op.Untagged? && Encodable(op) && EncodeFields(op) == rest
            && TagFor(op) == if tag == LegacyTag then PaymentTag else tag
  {
    if (tag == CommTag || tag == StashTag) && COLON in rest { JoinAtColon(rest); }
  }

  lemma BodyInverse(body: Bytes)
    requires ParseBody(body).Some?
    ensures var op := ParseBody(body).value;
            !op.Untagged? && Encodable(op) && (EncodeBody(op) == body <==> TagOf(body) != Some(LegacyTag))
  {
    var tag := TagOf(body).value;
    var rest := body[|TagBytes(tag)|..];
    FieldsInverse(tag, rest);
    assert body == TagBytes(tag) + rest;
    if tag == LegacyTag {
      assert |EncodeBody(ParseBody(body).value)| == |body| + 4;
    }
  }

  lemma LegacyTagged(body: Bytes)
    ensures TagOf(body) == Some(LegacyTag) <==> PAY <= body
  {
    if PAY <= body {
      assert body == PAY + body[|PAY|..];
      TagOfTagged(LegacyTag, body[|PAY|..]);
    }
  }

  lemma JoinAtColon(s: Bytes)
    requires COLON in s
    ensures var i := Position(s, COLON).value;
            s == s[..i] + ([COLON] + s[i + 1..])
  {
    JoinAt(s, Position(s, COLON).value);
  }

  lemma JoinAt(s: Bytes, i: nat)
    requires i < |s|
    ensures s == s[..i] + ([s[i]] + s[i + 1..])
  {
  }

  /** Every payload that parses yields an encodable operation, and is the encoding
      of that operation except exactly when the legacy payment tag was used. */
  lemma ParseThenEncode(payload: Bytes)
    requires Parse(payload).Some?
    ensures Encodable(Parse(payload).value)
    ensures Encode(Parse(payload).value) == payload <==> !Legacy(payload)
    ensures Parse(Encode(Parse(payload).value)) == Parse(payload)
  {
    var op := Parse(payload).value;
    var rest := payload[|PROTOCOL|..];
    assert payload == PROTOCOL + rest;
    if VERSION_1 <= rest {
      var body := rest[|VERSION_1|..];
      assert rest == VERSION_1 + body;
      BodyInverse(body);
      LegacyTagged(body);
      LegacyBody(payload, body);
      if EncodeBody(op) != body {
        assert Encode(op)[|PROTOCOL|..][|VERSION_1|..] == EncodeBody(op);
        assert payload[|PROTOCOL|..][|VERSION_1|..] == body;
      }
    } else {
      LegacyVersioned(rest);
    }
    EncodeThenParse(op);
  }

  lemma LegacyVersioned(rest: Bytes)
    ensures Legacy(PROTOCOL + rest) ==> VERSION_1 <= rest
  {
    var p, payload := PROTOCOL + (VERSION_1 + PAY), PROTOCOL + rest;
    if p <= payload {
      var k := |PROTOCOL|;
      assert rest[0] == payload[k] == p[k] && rest[1] == payload[k + 1] == p[k + 1];
    }
  }

  lemma LegacyBody(payload: Bytes, body: Bytes)
    requires payload == PROTOCOL + (VERSION_1 + body)
    ensures Legacy(payload) <==> PAY <= body
  {
    var p := PROTOCOL + (VERSION_1 + PAY);
    if PAY <= body {
      assert p == payload[..|p|];
    }
    if p <= payload {
      assert payload[..|p|] == p;
      assert forall i :: 0 <= i < |PAY| ==> body[i] == payload[|PROTOCOL| + |VERSION_1| + i] == p[|PROTOCOL| + |VERSION_1| + i] == PAY[i];
    }
  }

  lemma ParseTagged(body: Bytes)
    ensures Parse(PROTOCOL + (VERSION_1 + body)) == ParseBody(body)
  {
    ParseAfterProtocol(VERSION_1 + body);
    assert (VERSION_1 + body)[|VERSION_1|..] == body;
  }

  lemma ParseAfterProtocol(rest: Bytes)
    ensures StripPrefix(PROTOCOL, PROTOCOL + rest) == Some(rest)
  {
    assert (PROTOCOL + rest)[|PROTOCOL|..] == rest;
  }

  lemma EncodeThenParse(op: Operation)
    requires Encodable(op)
    ensures Parse(Encode(op)) == Some(op)
  {
    if op.Untagged? {
      ParseAfterProtocol(op.sealed);
    } else {
      ParseTagged(EncodeBody(op));
      BodyRoundTrip(op);
    }
  }

  /** An operation survives encoding and parsing exactly when it is encodable. */
  lemma RoundTrip(op: Operation)
    ensures Parse(Encode(op)) == Some(op) <==> Encodable(op)
  {
    if Encodable(op) { EncodeThenParse(op); }
    if Parse(Encode(op)) == Some(op) { ParseThenEncode(Encode(op)); }
  }

  // ----- the grammar in full -----

  function Ascii(s: string): (r: Bytes)
    ensures |r| == |s|
  {
    seq(|s|, i requires 0 <= i < |s| => (s[i] as int % 256) as byte)
  }

  lemma TagsAreAscii()
    ensures Ascii("ciph_msg:") == PROTOCOL && Ascii("1:") == VERSION_1 && Ascii(":") == [COLON]
    ensures Ascii("payment:") == PAYMENT && Ascii("pay:") == PAY && Ascii("handshake:") == HANDSHAKE
    ensures Ascii("comm:") == COMM && Ascii("self_stash:") == SELF_STASH
  {
  }

  lemma AsciiConcat(a: string, b: string)
    ensures Ascii(a + b) == Ascii(a) + Ascii(b)
  {
  }

  lemma VersionedPrefix(tag: string)
    ensures Ascii("ciph_msg:1:" + tag) == PROTOCOL + (VERSION_1 + Ascii(tag))
  {
    TagsAreAscii();
    assert "ciph_msg:1:" + tag == "ciph_msg:" + ("1:" + tag);
    AsciiConcat("ciph_msg:", "1:" + tag);
    AsciiConcat("1:", tag);
  }

  lemma Versioned(full: string, tag: string, code: Bytes, s: Bytes)
    requires full == "ciph_msg:1:" + tag && Ascii(tag) == code
    ensures Ascii(full) + s == PROTOCOL + (VERSION_1 + (code + s))
  {
    VersionedPrefix(tag);
    assert (PROTOCOL + (VERSION_1 + code)) + s == PROTOCOL + (VERSION_1 + (code + s));
  }

  lemma PaymentPrefix(s: Bytes)
    ensures Ascii("ciph_msg:1:payment:") + s == PROTOCOL + (VERSION_1 + (PAYMENT + s))
    ensures Ascii("ciph_msg:1:pay:") + s == PROTOCOL + (VERSION_1 + (PAY + s))
  {
    TagsAreAscii();
    Versioned("ciph_msg:1:payment:", "payment:", PAYMENT, s);
    Versioned("ciph_msg:1:pay:", "pay:", PAY, s);
  }

  lemma OtherPrefixes(s: Bytes)
    ensures Ascii("ciph_msg:1:handshake:") + s == PROTOCOL + (VERSION_1 + (HANDSHAKE + s))
    ensures Ascii("ciph_msg:1:comm:") + s == PROTOCOL + (VERSION_1 + (COMM + s))
    ensures Ascii("ciph_msg:1:self_stash:") + s == PROTOCOL + (VERSION_1 + (SELF_STASH + s))
  {
    TagsAreAscii();
    Versioned("ciph_msg:1:handshake:", "handshake:", HANDSHAKE, s);
    Versioned("ciph_msg:1:comm:", "comm:", COMM, s);
    Versioned("ciph_msg:1:self_stash:", "self_stash:", SELF_STASH, s);
  }

  lemma LegacyParses(payload: Bytes, op: Operation)
    requires Legacy(payload)
    ensures Parse(payload) == Some(op) <==> op.Payment? && payload == PROTOCOL + (VERSION_1 + (PAY + op.sealed))
  {
    var n := |PROTOCOL| + |VERSION_1| + |PAY|;
    var rest := payload[n..];
    var p := PROTOCOL + (VERSION_1 + PAY);
    assert payload == p + rest && p + rest == PROTOCOL + (VERSION_1 + (PAY + rest));
    ParseTagged(PAY + rest);
    TagOfTagged(LegacyTag, rest);
    assert (PAY + rest)[|PAY|..] == rest;
    if op.Payment? && payload == PROTOCOL + (VERSION_1 + (PAY + op.sealed)) {
      assert (PROTOCOL + (VERSION_1 + (PAY + op.sealed)))[n..] == op.sealed;
    }
  }

  lemma LegacyShape(s: Bytes)
    ensures Legacy(PROTOCOL + (VERSION_1 + (PAY + s)))
  {
    var p := PROTOCOL + (VERSION_1 + PAY);
    assert PROTOCOL + (VERSION_1 + (PAY + s)) == p + s;
  }

  /** Parsing and encoding determine each other, the legacy tag aside. */
  lemma ParsesExactly(payload: Bytes, op: Operation)
    ensures Parse(payload) == Some(op) <==>
              || (Encodable(op) && payload == Encode(op))
              || (op.Payment? && payload == PROTOCOL + (VERSION_1 + (PAY + op.sealed)))
  {
    if Encodable(op) { EncodeThenParse(op); }
    if op.Payment? { LegacyShape(op.sealed); }
    if Legacy(payload) { LegacyParses(payload, op); }
    if Parse(payload) == Some(op) { ParseThenEncode(payload); }
  }

  /** The grammar.  Exactly these payloads yield exactly these operations; every
      other payload is no message. */
  lemma Grammar(payload: Bytes, op: Operation)
    ensures Parse(payload) == Some(op) <==>
              match op
              case Untagged(s) => payload == Ascii("ciph_msg:") + s && s != [] && !(Ascii("1:") <= s)
              case Payment(s) =>
                payload == Ascii("ciph_msg:1:payment:") + s || payload == Ascii("ciph_msg:1:pay:") + s
              case HandshakeV2(s) => payload == Ascii("ciph_msg:1:handshake:") + s
              case Contextual(alias, s) =>
                0x3A !in alias && payload == Ascii("ciph_msg:1:comm:") + (alias + (Ascii(":") + s))
              case SelfStash(None, s) => 0x3A !in s && payload == Ascii("ciph_msg:1:self_stash:") + s
              case SelfStash(Some(key), s) =>
                0x3A !in key && payload == Ascii("ciph_msg:1:self_stash:") + (key + (Ascii(":") + s))
  {
    ParsesExactly(payload, op);
    match op {
      case Untagged(s) => TagsAreAscii();
      case Payment(s) => PaymentPrefix(s);
      case HandshakeV2(s) => OtherPrefixes(s);
      case Contextual(alias, s) => Joined(alias, s);
      case SelfStash(None, s) => OtherPrefixes(s);
      case SelfStash(Some(key), s) => Joined(key, s);
    }
  }

  lemma Joined(a: Bytes, s: Bytes)
    ensures Ascii("ciph_msg:1:comm:") + (a + (Ascii(":") + s)) == PROTOCOL + (VERSION_1 + (COMM + (a + ([COLON] + s))))
    ensures Ascii("ciph_msg:1:self_stash:") + (a + (Ascii(":") + s))
         == PROTOCOL + (VERSION_1 + (SELF_STASH + (a + ([COLON] + s))))
  {
    assert Ascii(":") == [COLON] by { TagsAreAscii(); }
    OtherPrefixes(a + ([COLON] + s));
  }
}
