/** The protocol envelope and the stream of length-prefixed frames. JSON text
    and the derived forms of a frame are parameters. */
module Framing {
  import opened Utf8
  import opened Decimal

  type Bytes = seq<Byte>

  const MAX_FRAME_BYTES: nat := 16 * 1024 * 1024
  const MAX_OP_BYTES: nat := 64
  const TAG_KEY := "type"
  const REQUEST_ID_KEY := "request_id"
  const U64: nat := 0x1_0000_0000_0000_0000

  datatype Json = Null | Bool(b: bool) | Number(n: int) | Fraction(text: string) | Text(s: string) | List(items: seq<Json>)
                | Object(fields: map<string, Json>)

  /** The JSON printer and parser, the derived serialisation of a frame type,
      and what a frame's own tag and request id are. */
  datatype Schema<!F> = Schema(
    write: Json -> Bytes, parse: Bytes -> Option<Json>, toValue: F -> Json, fromValue: Json -> Option<F>,
    op: F -> string, rid: F -> Option<nat>, known: set<string>)

  predicate OpIsWellFormed(op: string) {
    0 < |op| <= MAX_OP_BYTES && forall i :: 0 <= i < |op| ==> 'a' <= op[i] <= 'z' || '0' <= op[i] <= '9' || op[i] == '_'
  }

  predicate RidField(fields: map<string, Json>, rid: Option<nat>) {
    match rid
    case None => REQUEST_ID_KEY !in fields
    case Some(n) => REQUEST_ID_KEY in fields && fields[REQUEST_ID_KEY] == Number(n)
  }

  /** A frame's value is an object that holds its tag and, exactly when it has
      one, its request id. */
  ghost predicate WritesTag<F>(c: Schema<F>, f: F) {
    var value := c.toValue(f);
    && value.Object? && TAG_KEY in value.fields && value.fields[TAG_KEY] == Text(c.op(f)) && c.op(f) in c.known
    && (c.rid(f).Some? ==> c.rid(f).value < U64)
    && RidField(value.fields, c.rid(f))
  }

  /** A frame read from an object has the object's tag, and no request id but
      the object's. */
  ghost predicate ReadsTag<F>(c: Schema<F>, fields: map<string, Json>, f: F) {
    && TAG_KEY in fields && fields[TAG_KEY] == Text(c.op(f)) && c.op(f) in c.known
    && (c.rid(f).Some? ==> REQUEST_ID_KEY in fields && fields[REQUEST_ID_KEY] == Number(c.rid(f).value))
  }

  /** What reading is assumed of the derives. */
  ghost predicate Reads<F(!new)>(c: Schema<F>) {
    && (forall fields, f :: c.fromValue(Object(fields)) == Some(f) ==> ReadsTag(c, fields, f))
    && (forall op :: op in c.known ==> OpIsWellFormed(op))
  }

  // ---- the envelope ----

  datatype Envelope = Envelope(op: string, rid: Option<nat>, body: Json)

  datatype ReadError =
    | Transport
    | MalformedFrame(detail: string)
    | UnknownOp(op: string, rid: Option<nat>)
    | MalformedBody(op: string, rid: Option<nat>, detail: string)

  datatype Result<+T> = Ok(value: T) | Err(error: ReadError)

  /** `as_u64`, or what a missing or null `rid` reads as. */
  function ReadRid(value: Json): Option<Option<nat>> {
    match value
    case Null => Some(None)
    case Number(n) => if 0 <= n < U64 then Some(Some(n)) else None
    case _ => None
  }

  /** Stage one: an object with the reserved keys, or (as every derived struct
      reads) an array of the three values in order. */
  function ReadEnvelope(value: Json): Option<Envelope> {
    match value
    case Object(fields) =>
      if "op" in fields && fields["op"].Text? && "body" in fields then
        var rid := ReadRid(if "rid" in fields then fields["rid"] else Null);
        if rid.Some? then Some(Envelope(fields["op"].s, rid.value, fields["body"])) else None
      else None
    case List(items) =>
      if |items| == 3 && items[0].Text? && ReadRid(items[1]).Some?
      then Some(Envelope(items[0].s, ReadRid(items[1]).value, items[2])) else None
    case _ => None
  }

  function EnvelopeValue(op: string, rid: Option<nat>, body: map<string, Json>): Json {
    var fields := map["op" := Text(op), "body" := Object(body)];
    Object(if rid.Some? then fields["rid" := Number(rid.value)] else fields)
  }

  ghost function EnvelopeOf<F>(c: Schema<F>, frame: F): Json
    requires WritesTag(c, frame)
  {
    EnvelopeValue(c.op(frame), c.rid(frame), c.toValue(frame).fields - {TAG_KEY, REQUEST_ID_KEY})
  }

  /** What writing this frame is assumed to be: its value holds its tag and id,
      and the JSON library reads back the one envelope it prints. Whether the
      derives read the frame's value back is not assumed: they do not read a
      ratio that is no number, which is written as null. */
  ghost predicate Writes<F>(c: Schema<F>, frame: F) {
    && WritesTag(c, frame) && OpIsWellFormed(c.op(frame))
    && c.parse(c.write(EnvelopeOf(c, frame))) == Some(EnvelopeOf(c, frame))
  }

  method EncodeFrame<F>(c: Schema<F>, frame: F) returns (payload: Bytes)
    requires WritesTag(c, frame)
    ensures payload == Encoded(c, frame)
  {
    var body := c.toValue(frame).fields;
    var op := body[TAG_KEY].s;
    body := body - {TAG_KEY};
    var rid: Option<nat> := None;
    if REQUEST_ID_KEY in body {
      var value := body[REQUEST_ID_KEY];
      if value.Number? && 0 <= value.n < U64 {
        rid := Some(value.n);
      }
    }
    body := body - {REQUEST_ID_KEY};
    assert body == c.toValue(frame).fields - {TAG_KEY, REQUEST_ID_KEY};
    payload := c.write(EnvelopeValue(op, rid, body));
  }

  ghost function Encoded<F>(c: Schema<F>, frame: F): Bytes
    requires WritesTag(c, frame)
  {
    c.write(EnvelopeOf(c, frame))
  }

  function Tagged(op: string, rid: Option<nat>, body: map<string, Json>): map<string, Json> {
    var tagged := (body - {REQUEST_ID_KEY})[TAG_KEY := Text(op)];
    if rid.Some? then tagged[REQUEST_ID_KEY := Number(rid.value)] else tagged
  }

  /** What an envelope is to decode to. The details of a failure are the JSON
      library's; only where they come from is kept. */
  function Opened<F>(c: Schema<F>, envelope: Envelope): Result<F> {
    if !envelope.body.Object? then Err(MalformedFrame("body is not an object"))
    else if !OpIsWellFormed(envelope.op) then Err(UnknownOp(envelope.op, envelope.rid))
    else match c.fromValue(Object(Tagged(envelope.op, envelope.rid, envelope.body.fields)))
      case Some(frame) => Ok(frame)
      case None =>
        if envelope.op in c.known then Err(MalformedBody(envelope.op, envelope.rid, "body"))
        else Err(UnknownOp(envelope.op, envelope.rid))
  }

  function Decoded<F>(c: Schema<F>, payload: Bytes): Result<F> {
    match c.parse(payload)
    case None => Err(MalformedFrame("json"))
    case Some(value) =>
      match ReadEnvelope(value)
      case None => Err(MalformedFrame("envelope"))
      case Some(envelope) => Opened(c, envelope)
  }

  method DecodeFrame<F>(c: Schema<F>, payload: Bytes) returns (result: Result<F>)
    ensures result == Decoded(c, payload)
  {
    var value := c.parse(payload);
    if value.None? {
      return Err(MalformedFrame("json"));
    }
    var envelope := ReadEnvelope(value.value);
    if envelope.None? {
      return Err(MalformedFrame("envelope"));
    }
    var Envelope(op, rid, content) := envelope.value;
    if !content.Object? {
      return Err(MalformedFrame("body is not an object"));
    }
    if !OpIsWellFormed(op) {
      return Err(UnknownOp(op, rid));
    }
    var body := content.fields;
    body := body - {REQUEST_ID_KEY};
    body := body[TAG_KEY := Text(op)];
    if rid.Some? {
      body := body[REQUEST_ID_KEY := Number(rid.value)];
    }
    var frame := c.fromValue(Object(body));
    if frame.Some? {
      return Ok(frame.value);
    }
    result := Err(if op in c.known then MalformedBody(op, rid, "body") else UnknownOp(op, rid));
  }

  /** An encoded frame decodes to what the derives make of its value, so to the
      frame itself exactly when they read that value back. */
  lemma DecodeUndoesEncode<F>(c: Schema<F>, frame: F)
    requires Writes(c, frame)
    ensures Decoded(c, Encoded(c, frame)) == Ok(frame) <==> c.fromValue(c.toValue(frame)) == Some(frame)
    ensures c.fromValue(c.toValue(frame)).None? ==>
      Decoded(c, Encoded(c, frame)) == Err(MalformedBody(c.op(frame), c.rid(frame), "body"))
  {
    var fields := c.toValue(frame).fields;
    var body := fields - {TAG_KEY, REQUEST_ID_KEY};
    assert ReadEnvelope(EnvelopeOf(c, frame)) == Some(Envelope(c.op(frame), c.rid(frame), Object(body)));
    assert Tagged(c.op(frame), c.rid(frame), body) == fields;
    assert Object(fields) == c.toValue(frame);
  }

  function RidValue(rid: Option<nat>): Json { if rid.Some? then Number(rid.value) else Null }

  /** An envelope need not be an object: the three values in an array are read as
      the same envelope, and decode to the same. */
  lemma AnArrayIsAnEnvelope<F>(c: Schema<F>, payload: Bytes, op: string, rid: Option<nat>, body: map<string, Json>)
    requires rid.Some? ==> rid.value < U64
    requires c.parse(payload) == Some(List([Text(op), RidValue(rid), Object(body)]))
    ensures ReadEnvelope(List([Text(op), RidValue(rid), Object(body)])) == ReadEnvelope(EnvelopeValue(op, rid, body))
         == Some(Envelope(op, rid, Object(body)))
    ensures Decoded(c, payload) == Opened(c, Envelope(op, rid, Object(body)))
  {
    hide Opened;
    assert ReadRid(RidValue(rid)) == Some(rid);
  }

  /** Whatever a body says under the two in-memory keys, the frame is the
      envelope's operation with the envelope's request id or none. */
  lemma BodyCannotSpeakForTheEnvelope<F(!new)>(c: Schema<F>, op: string, rid: Option<nat>, body: map<string, Json>,
                                               other: map<string, Json>)
    requires Reads(c) && body - {TAG_KEY, REQUEST_ID_KEY} == other - {TAG_KEY, REQUEST_ID_KEY}
    ensures Opened(c, Envelope(op, rid, Object(body))) == Opened(c, Envelope(op, rid, Object(other)))
    ensures var result := Opened(c, Envelope(op, rid, Object(body)));
      result.Ok? ==> c.op(result.value) == op && (c.rid(result.value).Some? ==> c.rid(result.value) == rid)
  {
    SameTagged(op, rid, body, other);
    var tagged := Tagged(op, rid, body);
    var result := Opened(c, Envelope(op, rid, Object(body)));
    if result.Ok? {
      assert ReadsTag(c, tagged, result.value);
      assert tagged[TAG_KEY] == Text(op);
    }
  }

  lemma SameTagged(op: string, rid: Option<nat>, body: map<string, Json>, other: map<string, Json>)
    requires body - {TAG_KEY, REQUEST_ID_KEY} == other - {TAG_KEY, REQUEST_ID_KEY}
    ensures Tagged(op, rid, body) == Tagged(op, rid, other)
  {
    var left, right := body - {TAG_KEY, REQUEST_ID_KEY}, other - {TAG_KEY, REQUEST_ID_KEY};
    var one, two := (body - {REQUEST_ID_KEY})[TAG_KEY := Text(op)], (other - {REQUEST_ID_KEY})[TAG_KEY := Text(op)];
    assert one == left[TAG_KEY := Text(op)];
    assert two == right[TAG_KEY := Text(op)];
  }

  /** Which failure it is: about the frame exactly when stage one fails, and
      about one request, named by its own rid, otherwise. */
  lemma FailuresAreClassified<F(!new)>(c: Schema<F>, payload: Bytes)
    requires Reads(c)
    ensures var result := Decoded(c, payload);
      var envelope := if c.parse(payload).Some? then ReadEnvelope(c.parse(payload).value) else None;
      && (result.Err? && result.error.MalformedFrame? <==> envelope.None? || !envelope.value.body.Object?)
      && !(result.Err? && result.error.Transport?)
      && (result.Err? && result.error.UnknownOp? ==>
           result.error == UnknownOp(envelope.value.op, envelope.value.rid) && envelope.value.op !in c.known)
      && (result.Err? && result.error.MalformedBody? ==>
           result.error.op == envelope.value.op && result.error.rid == envelope.value.rid && envelope.value.op in c.known)
      && (result.Ok? ==> envelope.Some? && envelope.value.op in c.known && c.op(result.value) == envelope.value.op)
  {
    var envelope := if c.parse(payload).Some? then ReadEnvelope(c.parse(payload).value) else None;
    if envelope.Some? && envelope.value.body.Object? {
      BodyCannotSpeakForTheEnvelope(c, envelope.value.op, envelope.value.rid, envelope.value.body.fields,
                                    envelope.value.body.fields);
      var result := Decoded(c, payload);
      if result.Ok? {
        assert ReadsTag(c, Tagged(envelope.value.op, envelope.value.rid, envelope.value.body.fields), result.value);
      }
    }
  }

  /** An operation's name: 1 to 64 letters, digits and underscores. */
  predicate IsName(op: string) {
    && 1 <= |op| <= 64
    && forall i :: 0 <= i < |op| ==>
         var c := op[i] as int;
         0x61 <= c <= 0x7A || 0x30 <= c <= 0x39 || c == 0x5F
  }

  /** Everything an envelope can decode to: a rid that is no 64-bit number spoils
      the envelope and a body that is no object the frame; a frame then comes out
      exactly when the operation is a name and the derives read its body under it,
      with the envelope's own operation and request id; if they do not, what is
      wrong is the operation, unless it is a known name. */
  lemma DecodedExactly<F>(c: Schema<F>, payload: Bytes, op: string, rid: Json, content: Json, fields: map<string, Json>)
    requires fields == map["op" := Text(op), "rid" := rid, "body" := content] || fields == map["op" := Text(op), "body" := content]
    requires c.parse(payload) == Some(Object(fields))
    ensures var result := Decoded(c, payload);
      var given := if "rid" in fields then rid else Null;
      if given != Null && !(given.Number? && 0 <= given.n < 0x1_0000_0000_0000_0000) then result.Err? && result.error.MalformedFrame?
      else if !content.Object? then result.Err? && result.error.MalformedFrame?
      else
        var id: Option<nat> := if given.Number? then Some(given.n) else None;
        var named := (content.fields - {"request_id"})["type" := Text(op)];
        var read := c.fromValue(Object(if given.Number? then named["request_id" := given] else named));
        && (forall frame :: result == Ok(frame) <==> IsName(op) && read == Some(frame))
        && (!IsName(op) || (read.None? && op !in c.known) ==> result == Err(UnknownOp(op, id)))
        && (IsName(op) && read.None? && op in c.known ==>
             result.Err? && result.error.MalformedBody? && result.error.op == op && result.error.rid == id)
  {
    NamesAre(op);
    hide OpIsWellFormed, IsName;
  }

  lemma NamesAre(op: string)
    ensures OpIsWellFormed(op) <==> IsName(op)
  {
  }

  // ---- the stream ----

  function Prefix(n: nat): (bytes: Bytes)
    requires n < 0x1_0000_0000
    ensures |bytes| == 4
  {
    [n / 0x100_0000, n / 0x1_0000 % 0x100, n / 0x100 % 0x100, n % 0x100]
  }

  function Length(bytes: Bytes): nat
    requires |bytes| == 4
  {
    bytes[0] as int * 0x100_0000 + bytes[1] as int * 0x1_0000 + bytes[2] as int * 0x100 + bytes[3] as int
  }

  lemma LengthOfPrefix(n: nat)
    requires n < 0x1_0000_0000
    ensures Length(Prefix(n)) == n
  {
    assert n == n / 0x100 * 0x100 + n % 0x100;
    assert n / 0x100 == n / 0x100 / 0x100 * 0x100 + n / 0x100 % 0x100;
    assert n / 0x1_0000 == n / 0x1_0000 / 0x100 * 0x100 + n / 0x1_0000 % 0x100;
    assert n / 0x100 / 0x100 == n / 0x1_0000 && n / 0x1_0000 / 0x100 == n / 0x100_0000;
  }

  /** The bytes that frame one payload. */
  function Framed(payload: Bytes): Bytes
    requires |payload| <= MAX_FRAME_BYTES
  {
    Prefix(|payload|) + payload
  }

  /** One direction of a connection: what has been written, and how much of it
      has been read. */
  class Stream {
    var bytes: Bytes
    var at: nat

    constructor (bytes: Bytes)
      ensures this.bytes == bytes && at == 0
    {
      this.bytes := bytes;
      at := 0;
    }

    /** Fails when the stream ends too early; nothing is read after that. */
    method ReadExact(n: nat) returns (chunk: Option<Bytes>)
      requires at <= |bytes|
      modifies this`at
      ensures at <= |bytes|
      ensures if old(at) + n <= |bytes| then chunk == Some(bytes[old(at)..old(at) + n]) && at == old(at) + n else chunk == None
    {
      if at + n <= |bytes| {
        chunk := Some(bytes[at..at + n]);
        at := at + n;
      } else {
        chunk := None;
        at := |bytes|;
      }
    }

    /** `None` for a payload too long to frame: nothing is written. */
    method WriteFrame<F>(c: Schema<F>, frame: F) returns (ok: bool)
      requires WritesTag(c, frame)
      modifies this`bytes
      ensures ok <==> |Encoded(c, frame)| <= 0x100_0000
      ensures bytes == if ok then old(bytes) + Framed(Encoded(c, frame)) else old(bytes)
    {
      var payload := EncodeFrame(c, frame);
      if |payload| > MAX_FRAME_BYTES {
        return false;
      }
      bytes := bytes + Prefix(|payload|);
      bytes := bytes + payload;
      ok := true;
      assert old(bytes) + (Prefix(|payload|) + payload) == old(bytes) + Prefix(|payload|) + payload;
    }

    method ReadFrame<F>(c: Schema<F>) returns (result: Result<F>)
      requires at <= |bytes|
      modifies this`at
      ensures at <= |bytes|
      ensures var next := Next(old(bytes[at..]));
        if next.None? then result == Err(Transport)
        else result == Decoded(c, next.value) && at == old(at) + 4 + |next.value|
    {
      hide Decoded;
      ghost var rest := bytes[at..];
      var prefix := ReadExact(4);
      if prefix.None? {
        return Err(Transport);
      }
      assert prefix.value == rest[..4];
      var len := Length(prefix.value);
      if len > MAX_FRAME_BYTES {
        return Err(Transport);
      }
      var payload := ReadExact(len);
      if payload.None? {
        return Err(Transport);
      }
      assert payload.value == rest[4..4 + len];
      result := DecodeFrame(c, payload.value);
    }

    /** The receive loop: frames until the transport fails. */
    method ReadAll<F>(c: Schema<F>) returns (results: seq<Result<F>>)
      requires at <= |bytes|
      modifies this`at
      ensures results == Received(c, old(bytes[at..])) + [Err(Transport)]
    {
      results := [];
      var result: Result<F>;
      ghost var start := bytes[at..];
      while true
        invariant at <= |bytes|
        invariant results + Received(c, bytes[at..]) == Received(c, start)
        decreases |bytes| - at
      {
        ghost var rest := bytes[at..];
        result := ReadFrame(c);
        if result == Err(Transport) {
          NeverTransport(c, rest);
          assert results + [] == results;
          return results + [result];
        }
        assert bytes[at..] == rest[4 + |Next(rest).value|..];
        results := results + [result];
      }
    }
  }

  /** The payload at the front of the stream, if it is all there. */
  function Next(bytes: Bytes): (next: Option<Bytes>)
    ensures next.Some? ==> 4 + |next.value| <= |bytes|
  {
    if |bytes| < 4 then None
    else
      var len := Length(bytes[..4]);
      if len > MAX_FRAME_BYTES || 4 + len > |bytes| then None else Some(bytes[4..4 + len])
  }

  function Received<F>(c: Schema<F>, bytes: Bytes): seq<Result<F>>
    decreases |bytes|
  {
    match Next(bytes)
    case None => []
    case Some(payload) => [Decoded(c, payload)] + Received(c, bytes[4 + |payload|..])
  }

  lemma NeverTransport<F>(c: Schema<F>, bytes: Bytes)
    ensures Next(bytes).Some? ==> Decoded(c, Next(bytes).value) != Err(Transport)
    ensures Next(bytes).None? ==> Received(c, bytes) == []
  {
  }

  predicate Sendable(payloads: seq<Bytes>) { forall k :: 0 <= k < |payloads| ==> |payloads[k]| <= MAX_FRAME_BYTES }

  function Streamed(payloads: seq<Bytes>): Bytes
    requires Sendable(payloads)
  {
    if payloads == [] then [] else Framed(payloads[0]) + Streamed(payloads[1..])
  }

  /** A frame cut short, or nothing at all. */
  predicate CutShort(tail: Bytes, payload: Bytes)
    requires |payload| <= MAX_FRAME_BYTES
  {
    |tail| < |Framed(payload)| && tail == Framed(payload)[..|tail|]
  }

  lemma NextOfFramed(payload: Bytes, rest: Bytes)
    requires |payload| <= MAX_FRAME_BYTES
    ensures Next(Framed(payload) + rest) == Some(payload)
    ensures (Framed(payload) + rest)[4 + |payload|..] == rest
  {
    var bytes := Framed(payload) + rest;
    LengthOfPrefix(|payload|);
    assert bytes[..4] == Prefix(|payload|);
    assert bytes[4..4 + |payload|] == payload;
  }

  lemma NextOfCutShort(tail: Bytes, payload: Bytes)
    requires |payload| <= MAX_FRAME_BYTES && CutShort(tail, payload)
    ensures Next(tail) == None
  {
    if |tail| >= 4 {
      LengthOfPrefix(|payload|);
      assert tail[..4] == Framed(payload)[..4] == Prefix(|payload|);
    }
  }

  /** A stream of payloads, good or bad, cut off anywhere in the frame that
      follows them, is read back as one result for each, in order. */
  lemma {:induction false} StreamIsReadBack<F>(c: Schema<F>, payloads: seq<Bytes>, tail: Bytes, cut: Bytes)
    requires Sendable(payloads) && |cut| <= MAX_FRAME_BYTES && CutShort(tail, cut)
    ensures var results := Received(c, Streamed(payloads) + tail);
      |results| == |payloads| && forall k :: 0 <= k < |payloads| ==> results[k] == Decoded(c, payloads[k])
    decreases |payloads|
  {
    var bytes := Streamed(payloads) + tail;
    if payloads == [] {
      assert bytes == tail;
      NextOfCutShort(tail, cut);
    } else {
      var rest := Streamed(payloads[1..]) + tail;
      assert bytes == Framed(payloads[0]) + rest;
      NextOfFramed(payloads[0], rest);
      StreamIsReadBack(c, payloads[1..], tail, cut);
    }
  }

  /** A length prefix past the limit ends the stream too. */
  lemma TooLongEndsTheStream<F>(c: Schema<F>, payloads: seq<Bytes>, n: nat, rest: Bytes)
    requires Sendable(payloads) && 0x100_0000 < n < 0x1_0000_0000
    ensures var results := Received(c, Streamed(payloads) + (Prefix(n) + rest));
      |results| == |payloads| && forall k :: 0 <= k < |payloads| ==> results[k] == Decoded(c, payloads[k])
    decreases |payloads|
  {
    var bytes := Streamed(payloads) + (Prefix(n) + rest);
    if payloads == [] {
      assert bytes == Prefix(n) + rest && bytes[..4] == Prefix(n);
      LengthOfPrefix(n);
    } else {
      var more := Streamed(payloads[1..]) + (Prefix(n) + rest);
      assert bytes == Framed(payloads[0]) + more;
      NextOfFramed(payloads[0], more);
      TooLongEndsTheStream(c, payloads[1..], n, rest);
    }
  }
}
