// What the reader makes of any document, in terms of its keys and values (internal/eventbus/rpc/rpc_methods.go:56-140),
// and what a message then does (internal/eventbus/router.go:79-144).
module RpcReading {
  import opened Common
  import opened Rpcs
  import opened Routers

  // ---- Fields ----

  /** The field is absent, null or a text. */
  predicate TextOrNothing(fields: map<string, Json>, key: string) {
    key in fields ==> fields[key].Null? || fields[key].Text?
  }

  /** The field is absent, null or a whole number of 16 bits. */
  predicate IndexOrNothing(fields: map<string, Json>, key: string) {
    key in fields ==> fields[key].Null? || exists n: LineIndex :: Counts(fields[key], n)
  }

  predicate Counts(j: Json, n: LineIndex) { j == Number(n as real) }

  function TextAt(fields: map<string, Json>, key: string): string {
    if key in fields && fields[key].Text? then fields[key].s else ""
  }

  function OptionalTextAt(fields: map<string, Json>, key: string): Option<string> {
    if key in fields && fields[key].Text? then Some(fields[key].s) else None
  }

  function ParamsAt(fields: map<string, Json>): map<string, Json> {
    if "params" in fields && fields["params"].Object? then fields["params"].fields else map[]
  }

  predicate HeadOk(fields: map<string, Json>) {
    && TextOrNothing(fields, "jsonrpc") && TextOrNothing(fields, "method")
    && ("params" in fields ==> fields["params"].Null? || fields["params"].Object?)
  }

  const METHODS := {"join", "iceCandidate", "offer", "answer", "close_session", "publish", "publishStop", "subscribe",
                    "subscribeCancel"}

  predicate CandidateOk(params: map<string, Json>) {
    && TextOrNothing(params, "candidate") && TextOrNothing(params, "sdpMid") && TextOrNothing(params, "target")
    && TextOrNothing(params, "usernameFragment") && IndexOrNothing(params, "sdpMLineIndex")
  }

  predicate DescriptionOk(lib: Library, params: map<string, Json>) {
    && TextOrNothing(params, "type") && TextOrNothing(params, "sdp") && TextOrNothing(params, "target")
    && ("type" in params ==> lib.readType(TextAt(params, "type")).Some?)
  }

  /** The text of an offer is empty, no base64, or packed data. */
  predicate OfferOk(lib: Library, sdp: string) { sdp == "" || !ValidBase64(sdp) || lib.unpack(sdp).Some? }

  predicate ParamsOk(lib: Library, m: string, params: map<string, Json>) {
    && (m == "iceCandidate" ==> CandidateOk(params))
    && (m == "offer" || m == "answer" ==> DescriptionOk(lib, params))
    && (m == "offer" ==> OfferOk(lib, TextAt(params, "sdp")))
    && (m == "subscribe" || m == "subscribeCancel" ==> TextOrNothing(params, "user_id"))
  }

  lemma TextFieldMeaning(fields: map<string, Json>, key: string)
    ensures TextField(fields, key) == if TextOrNothing(fields, key) then Ok(TextAt(fields, key)) else Err(Malformed)
    ensures OptionalText(fields, key) ==
            if TextOrNothing(fields, key) then Ok(OptionalTextAt(fields, key)) else Err(Malformed)
  {
  }

  lemma IndexMeaning(fields: map<string, Json>, key: string)
    ensures OptionalIndex(fields, key).Ok? <==> IndexOrNothing(fields, key)
    ensures OptionalIndex(fields, key).Err? ==> OptionalIndex(fields, key) == Err(Malformed)
    ensures OptionalIndex(fields, key).Ok? ==>
      IsIndex(OptionalIndex(fields, key).value, if key in fields then fields[key] else Null)
  {
    if key in fields && fields[key].Number? {
      var n := fields[key].n;
      if k: LineIndex :| Counts(fields[key], k) {
        assert n.Floor == k;
      }
      if n == n.Floor as real && 0 <= n.Floor <= 65535 {
        var k: LineIndex := n.Floor;
        assert Counts(fields[key], k);
      }
    }
  }

  predicate IsIndex(index: Option<LineIndex>, found: Json) {
    match index
    case Some(k) => Counts(found, k)
    case None => found.Null?
  }

  /** A candidate message with these parameters. */
  predicate ReadsCandidate(r: Rpc, params: map<string, Json>) {
    && r.IceCandidateRpc? && r.head == Head("2.0", "iceCandidate") && r.target == TextAt(params, "target")
    && r.candidate.candidate == TextAt(params, "candidate")
    && r.candidate.sdpMid == OptionalTextAt(params, "sdpMid")
    && r.candidate.usernameFragment == OptionalTextAt(params, "usernameFragment")
    && IsIndex(r.candidate.sdpMLineIndex, if "sdpMLineIndex" in params then params["sdpMLineIndex"] else Null)
  }

  // ---- Which documents are refused ----

  /** The parameters of a candidate, as they are read. */
  lemma CandidateMeaning(params: map<string, Json>)
    ensures ReadCandidate(params).Ok? <==> CandidateOk(params)
    ensures ReadCandidate(params).Err? ==> ReadCandidate(params) == Err(Malformed)
    ensures ReadCandidate(params).Ok? ==> ReadsCandidate(ReadCandidate(params).value, params)
  {
    TextFieldMeaning(params, "candidate");
    TextFieldMeaning(params, "sdpMid");
    TextFieldMeaning(params, "usernameFragment");
    TextFieldMeaning(params, "target");
    IndexMeaning(params, "sdpMLineIndex");
  }

  lemma DescriptionMeaning(lib: Library, params: map<string, Json>)
    ensures ReadDescription(lib, params).Ok? <==> DescriptionOk(lib, params)
    ensures ReadDescription(lib, params).Err? ==> ReadDescription(lib, params) == Err(Malformed)
    ensures ReadDescription(lib, params).Ok? ==>
      var (d, target) := ReadDescription(lib, params).value;
      && target == TextAt(params, "target") && d.sdp == TextAt(params, "sdp")
      && Some(d.kind) == if "type" in params then lib.readType(TextAt(params, "type")) else Some(UnknownType)
  {
    TextFieldMeaning(params, "type");
    TextFieldMeaning(params, "sdp");
    TextFieldMeaning(params, "target");
  }

  lemma FieldsMeaning(lib: Library, m: string, params: map<string, Json>)
    ensures FromFields(lib, m, params) == Err(UnknownMethod) <==> m !in METHODS
    ensures FromFields(lib, m, params).Ok? <==> m in METHODS && ParamsOk(lib, m, params)
  {
    CandidateMeaning(params);
    DescriptionMeaning(lib, params);
    TextFieldMeaning(params, "user_id");
  }

  lemma HeadMeaning(lib: Library, fields: map<string, Json>)
    ensures FromReader(lib, Document(Object(fields))) ==
      if HeadOk(fields) then FromFields(lib, TextAt(fields, "method"), ParamsAt(fields)) else Err(Malformed)
  {
    TextFieldMeaning(fields, "jsonrpc");
    TextFieldMeaning(fields, "method");
  }

  /** Exactly which documents are read, over all of them. The version is never looked at, and absent and null fields
      are no fault. */
  lemma ReadIff(lib: Library, input: Input)
    ensures FromReader(lib, input).Ok? <==>
      && input.Document? && input.doc.Object? && HeadOk(input.doc.fields)
      && TextAt(input.doc.fields, "method") in METHODS
      && ParamsOk(lib, TextAt(input.doc.fields, "method"), ParamsAt(input.doc.fields))
    ensures FromReader(lib, input) == Err(UnknownMethod) <==>
      input == Document(Null) ||
      (input.Document? && input.doc.Object? && HeadOk(input.doc.fields)
       && TextAt(input.doc.fields, "method") !in METHODS)
  {
    if input.Document? && input.doc.Object? {
      HeadMeaning(lib, input.doc.fields);
      FieldsMeaning(lib, TextAt(input.doc.fields, "method"), ParamsAt(input.doc.fields));
    }
  }

  // ---- What is read ----

  /** The kind of a description: what the library makes of the name, and unknown without one. */
  function KindAt(lib: Library, params: map<string, Json>): SdpType
    requires DescriptionOk(lib, params)
  {
    if "type" in params then lib.readType(TextAt(params, "type")).value else UnknownType
  }

  /** The text of an offer: unpacked if it was packed. */
  function UnpackedAt(lib: Library, sdp: string): string
    requires OfferOk(lib, sdp)
  {
    if sdp == "" || !ValidBase64(sdp) then sdp else lib.unpack(sdp).value
  }

  /** Exactly what is read, argument by argument. */
  lemma ReadContent(lib: Library, fields: map<string, Json>)
    requires HeadOk(fields) && TextAt(fields, "method") in METHODS
    requires ParamsOk(lib, TextAt(fields, "method"), ParamsAt(fields))
    ensures FromReader(lib, Document(Object(fields))).Ok?
    ensures var r, m, p := FromReader(lib, Document(Object(fields))).value, TextAt(fields, "method"), ParamsAt(fields);
      && (m == "join" ==> r == JoinRpc(Head("2.0", "join")))
      && (m == "close_session" ==> r == CloseSessionRpc(Head("2.0", "close_session")))
      && (m == "publish" ==> r == StartStreamRpc(Head("2.0", "publish")))
      && (m == "publishStop" ==> r == StopStreamRpc(Head("2.0", "publishStop")))
      && (m == "subscribe" ==> r == SubscribeStreamRpc(Head("2.0", "subscribe"), TextAt(p, "user_id")))
      && (m == "subscribeCancel" ==>
            r == SubscribeStreamCancelRpc(Head("2.0", "subscribeCancel"), TextAt(p, "user_id")))
      && (m == "iceCandidate" ==> ReadsCandidate(r, p))
      && (m == "answer" ==>
            r == SdpRpc(Head("2.0", "answer"), Description(KindAt(lib, p), TextAt(p, "sdp")), TextAt(p, "target")))
      && (m == "offer" ==>
            r == SdpRpc(Head("2.0", "offer"), Description(KindAt(lib, p), UnpackedAt(lib, TextAt(p, "sdp"))),
                        TextAt(p, "target")))
  {
    var m, p := TextAt(fields, "method"), ParamsAt(fields);
    HeadMeaning(lib, fields);
    CandidateMeaning(p);
    DescriptionMeaning(lib, p);
    TextFieldMeaning(p, "user_id");
  }

  /** A message of any of the nine methods may come without parameters; its arguments are then empty. */
  function Empty(m: string): Rpc
    requires m in METHODS
  {
    match m
    case "join" => JoinRpc(Head("2.0", "join"))
    case "iceCandidate" => IceCandidateRpc(Head("2.0", "iceCandidate"), Candidate("", None, None, None), "")
    case "offer" => SdpRpc(Head("2.0", "offer"), Description(UnknownType, ""), "")
    case "answer" => SdpRpc(Head("2.0", "answer"), Description(UnknownType, ""), "")
    case "close_session" => CloseSessionRpc(Head("2.0", "close_session"))
    case "publish" => StartStreamRpc(Head("2.0", "publish"))
    case "publishStop" => StopStreamRpc(Head("2.0", "publishStop"))
    case "subscribe" => SubscribeStreamRpc(Head("2.0", "subscribe"), "")
    case "subscribeCancel" => SubscribeStreamCancelRpc(Head("2.0", "subscribeCancel"), "")
  }

  lemma EmptyIsRead(lib: Library, fields: map<string, Json>)
    requires HeadOk(fields) && TextAt(fields, "method") in METHODS && ParamsAt(fields) == map[]
    ensures FromReader(lib, Document(Object(fields))) == Ok(Empty(TextAt(fields, "method")))
  {
    ReadContent(lib, fields);
  }

  // ---- Absent and null ----

  /** A head without one of its fields reads like one in which the field is null or empty. */
  lemma AbsentHeadIsNull(lib: Library, fields: map<string, Json>, key: string)
    requires key in {"jsonrpc", "method", "params"}
    ensures FromReader(lib, Document(Object(fields - {key}))) == FromReader(lib, Document(Object(fields[key := Null])))
    ensures FromReader(lib, Document(Object(fields - {key}))) ==
            FromReader(lib, Document(Object(fields[key := if key == "params" then Object(map[]) else Text("")])))
  {
    HeadMeaning(lib, fields - {key});
    HeadMeaning(lib, fields[key := Null]);
    HeadMeaning(lib, fields[key := if key == "params" then Object(map[]) else Text("")]);
  }

  function WithParams(fields: map<string, Json>, params: map<string, Json>): Input {
    Document(Object(fields["params" := Object(params)]))
  }

  /** Of the parameters only a type differs when it is absent from when it is null; the plain texts also read alike
      when they are empty. */
  lemma AbsentParamIsNull(lib: Library, fields: map<string, Json>, params: map<string, Json>, key: string)
    requires key != "type"
    ensures FromReader(lib, WithParams(fields, params - {key})) ==
            FromReader(lib, WithParams(fields, params[key := Null]))
    ensures key in {"candidate", "target", "sdp", "user_id"} ==>
      FromReader(lib, WithParams(fields, params - {key})) ==
      FromReader(lib, WithParams(fields, params[key := Text("")]))
  {
    var m := TextAt(fields, "method");
    HeadMeaning(lib, fields["params" := Object(params - {key})]);
    HeadMeaning(lib, fields["params" := Object(params[key := Null])]);
    HeadMeaning(lib, fields["params" := Object(params[key := Text("")])]);
    FieldsAgree(lib, m, params - {key}, params[key := Null], key);
    if key in {"candidate", "target", "sdp", "user_id"} {
      FieldsAgree(lib, m, params - {key}, params[key := Text("")], key);
    }
  }

  lemma FieldsAgree(lib: Library, m: string, a: map<string, Json>, b: map<string, Json>, key: string)
    requires key != "type" && a - {key} == b - {key}
    requires key !in a && key in b
    requires b[key] == Null || (b[key] == Text("") && key in {"candidate", "target", "sdp", "user_id"})
    ensures FromFields(lib, m, a) == FromFields(lib, m, b)
  {
    FieldAgrees(lib, a, b, key, "candidate");
    FieldAgrees(lib, a, b, key, "sdpMid");
    FieldAgrees(lib, a, b, key, "sdpMLineIndex");
    FieldAgrees(lib, a, b, key, "usernameFragment");
    FieldAgrees(lib, a, b, key, "target");
    FieldAgrees(lib, a, b, key, "type");
    FieldAgrees(lib, a, b, key, "sdp");
    FieldAgrees(lib, a, b, key, "user_id");
  }

  lemma FieldAgrees(lib: Library, a: map<string, Json>, b: map<string, Json>, key: string, k: string)
    requires a - {key} == b - {key} && key !in a && key in b && (b[key] == Null || b[key] == Text(""))
    ensures TextField(a, k) == TextField(b, k)
    ensures k != key || b[key] == Null ==>
      OptionalText(a, k) == OptionalText(b, k) && OptionalIndex(a, k) == OptionalIndex(b, k)
    ensures k != key ==> TypeField(lib, a, k) == TypeField(lib, b, k)
  {
    if k != key {
      assert k in a <==> k in a - {key};
      assert k in b <==> k in b - {key};
      assert k in a ==> a[k] == (a - {key})[k] == (b - {key})[k] == b[k];
    }
  }

  // ---- What is printed ----

  /** Every printed message carries the version, its method, and its arguments under the names the reader looks
      for. */
  lemma PrintedKeys(r: Rpc)
    requires WellMade(r)
    ensures ToJson(r).Object? && HeadOk(ToJson(r).fields)
    ensures var fields := ToJson(r).fields;
      && TextAt(fields, "jsonrpc") == "2.0" && TextAt(fields, "method") == r.head.method_ && r.head.method_ in METHODS
      && var p := ParamsAt(fields);
        && (r.IceCandidateRpc? ==> ReadsCandidate(r, p))
        && (r.SdpRpc? ==> TextAt(p, "sdp") == r.description.sdp && TextAt(p, "target") == r.target)
        && (r.SubscribeStreamRpc? ==> TextAt(p, "user_id") == r.user)
        && (r.SubscribeStreamCancelRpc? ==> TextAt(p, "user_id") == r.user)
  {
  }

  // ---- What a message does ----

  /** Which callback each method asks for, with the sender and the arguments. Every readable document is covered. */
  lemma MethodCalls(lib: Library, user: string, fields: map<string, Json>)
    requires FromReader(lib, Document(Object(fields))).Ok?
    ensures var call, m, p :=
              CallFor(lib, Envelope(user, Document(Object(fields)))), TextAt(fields, "method"), ParamsAt(fields);
      && (m == "join" <==> call == Some(JoinCall(user)))
      && (m == "close_session" <==> call == Some(CloseCall(user)))
      && (m == "publish" <==> call == Some(PublishCall(user)))
      && (m == "publishStop" <==> call == Some(StopCall(user)))
      && (m == "subscribe" <==> call == Some(SubscribeCall(user, TextAt(p, "user_id"))))
      && (m == "subscribeCancel" <==> call == Some(UnsubscribeCall(user, TextAt(p, "user_id"))))
      && (m == "iceCandidate" <==> call.Some? && call.value.IceCall?)
      && (m == "iceCandidate" ==>
            call.value.user == user && call.value.target == TextAt(p, "target") &&
            call.value.candidate.candidate == TextAt(p, "candidate"))
      && (m == "offer" <==> call.Some? && call.value.OfferCall?)
      && (m == "offer" ==>
            call.value.user == user && call.value.target == TextAt(p, "target") &&
            OfferOk(lib, TextAt(p, "sdp")) && call.value.description.sdp == UnpackedAt(lib, TextAt(p, "sdp")))
      && (m == "answer" <==> call == None)
  {
    ReadIff(lib, Document(Object(fields)));
    ReadContent(lib, fields);
  }

  /** And which callback that is: a message stops the router iff the callback of its own method is missing. */
  lemma MethodCallbacks(lib: Library, user: string, fields: map<string, Json>)
    requires FromReader(lib, Document(Object(fields))).Ok?
    ensures var call, m := CallFor(lib, Envelope(user, Document(Object(fields)))), TextAt(fields, "method");
      call.Some? ==>
        && (CallbackOf(call.value) == OnJoin <==> m == "join")
        && (CallbackOf(call.value) == OnClose <==> m == "close_session")
        && (CallbackOf(call.value) == OnPublish <==> m == "publish")
        && (CallbackOf(call.value) == OnStop <==> m == "publishStop")
        && (CallbackOf(call.value) == OnSubscribe <==> m == "subscribe")
        && (CallbackOf(call.value) == OnUnsubscribe <==> m == "subscribeCancel")
        && (CallbackOf(call.value) == OnIce <==> m == "iceCandidate")
        && (CallbackOf(call.value) == OnOffer <==> m == "offer")
  {
    MethodCalls(lib, user, fields);
    ReadIff(lib, Document(Object(fields)));
  }
}
