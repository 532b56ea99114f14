// The RPC messages and their JSON form (internal/eventbus/rpc). Documents are JSON values, not bytes.
module Rpcs {
  import opened Common

  // ---- JSON ----

  /** Numbers are what the reader makes of them: double-precision values. */
  datatype Json = Null | Bool(b: bool) | Number(n: real) | Text(s: string) | List(items: seq<Json>)
                | Object(fields: map<string, Json>)

  /** What the reader finds: bytes that are no JSON document, or a document. */
  datatype Input = Unreadable | Document(doc: Json)

  // ---- Messages ----

  const VERSION := "2.0"

  const JOIN := "join"
  const ICE_CANDIDATE := "iceCandidate"
  const OFFER := "offer"
  const ANSWER := "answer"
  const CLOSE_SESSION := "close_session"
  const PUBLISH := "publish"
  const PUBLISH_STOP := "publishStop"
  const SUBSCRIBE := "subscribe"
  const SUBSCRIBE_CANCEL := "subscribeCancel"

  type LineIndex = x: int | 0 <= x <= 65535

  datatype Candidate = Candidate(
    candidate: string, sdpMid: Option<string>, sdpMLineIndex: Option<LineIndex>, usernameFragment: Option<string>)

  datatype SdpType = UnknownType | OfferType | PranswerType | AnswerType | RollbackType

  datatype Description = Description(kind: SdpType, sdp: string)

  datatype Head = Head(version: string, method_: string)

  /** One constructor for each concrete message type. */
  datatype Rpc =
    | IceCandidateRpc(head: Head, candidate: Candidate, target: string)
    | SdpRpc(head: Head, description: Description, target: string)
    | JoinRpc(head: Head)
    | CloseSessionRpc(head: Head)
    | StartStreamRpc(head: Head)
    | StopStreamRpc(head: Head)
    | SubscribeStreamRpc(head: Head, user: string)
    | SubscribeStreamCancelRpc(head: Head, user: string)

  /** A message as its constructor function makes it. */
  predicate WellMade(r: Rpc) {
    && r.head.version == VERSION
    && match r
       case IceCandidateRpc(_, _, _) => r.head.method_ == ICE_CANDIDATE
       case SdpRpc(_, _, _) => r.head.method_ == OFFER || r.head.method_ == ANSWER
       case JoinRpc(_) => r.head.method_ == JOIN
       case CloseSessionRpc(_) => r.head.method_ == CLOSE_SESSION
       case StartStreamRpc(_) => r.head.method_ == PUBLISH
       case StopStreamRpc(_) => r.head.method_ == PUBLISH_STOP
       case SubscribeStreamRpc(_, _) => r.head.method_ == SUBSCRIBE
       case SubscribeStreamCancelRpc(_, _) => r.head.method_ == SUBSCRIBE_CANCEL
  }

  datatype RpcError = Malformed | UnknownMethod

  /** The libraries the parser calls: unpacking of base64 text holding gzip data, which fails on other data,
      and the reading of the name of a description type. */
  datatype Library = Library(unpack: string -> Option<string>, readType: string -> Option<SdpType>)

  // ---- Base64 (section 4 of RFC 4648) ----

  predicate InAlphabet(c: char) {
    'A' <= c <= 'Z' || 'a' <= c <= 'z' || '0' <= c <= '9' || c == '+' || c == '/'
  }

  /** The decoder skips line breaks. */
  function Strip(s: string): string {
    if s == "" then "" else (if s[0] == '\r' || s[0] == '\n' then "" else [s[0]]) + Strip(s[1..])
  }

  predicate Quanta(t: string) {
    && |t| % 4 == 0
    && (forall i :: 0 <= i < |t| - 2 ==> InAlphabet(t[i]))
    && (t != "" ==>
          && (InAlphabet(t[|t| - 2]) || (t[|t| - 2] == '=' && t[|t| - 1] == '='))
          && (InAlphabet(t[|t| - 1]) || t[|t| - 1] == '='))
  }

  predicate ValidBase64(s: string) { Quanta(Strip(s)) }

  /** A session description (section 5.1 of RFC 8866) is never taken for packed data. */
  lemma PlainTextIsNotBase64(s: string)
    requires "v=0" <= s
    ensures !ValidBase64(s)
  {
    assert s[0] == 'v' && s[1] == '=' && s[2] == '0';
    assert Strip(s[1..]) == ['='] + Strip(s[1..][1..]) by { assert s[1..][0] == '='; }
    assert Strip(s[1..][1..]) == ['0'] + Strip(s[1..][1..][1..]) by { assert s[1..][1..][0] == '0'; }
    var t := Strip(s);
    assert t == ['v'] + Strip(s[1..]);
    assert |t| >= 3 && t[1] == '=';
    if |t| % 4 == 0 { assert !InAlphabet(t[1]); }
  }

  // ---- Reading ----

  /** A text field: absent and null leave it empty. */
  function TextField(fields: map<string, Json>, key: string): Result<string, RpcError> {
    if key !in fields then Ok("")
    else match fields[key]
      case Null => Ok("")
      case Text(s) => Ok(s)
      case _ => Err(Malformed)
  }

  function OptionalText(fields: map<string, Json>, key: string): Result<Option<string>, RpcError> {
    if key !in fields then Ok(None)
    else match fields[key]
      case Null => Ok(None)
      case Text(s) => Ok(Some(s))
      case _ => Err(Malformed)
  }

  function OptionalIndex(fields: map<string, Json>, key: string): Result<Option<LineIndex>, RpcError> {
    if key !in fields then Ok(None)
    else match fields[key]
      case Null => Ok(None)
      case Number(n) =>
        if n == n.Floor as real && 0 <= n.Floor <= 65535 then Ok(Some(n.Floor)) else Err(Malformed)
      case _ => Err(Malformed)
  }

  /** A description type is read by the library, null as the empty name; an absent one stays unknown. */
  function TypeField(lib: Library, fields: map<string, Json>, key: string): Result<SdpType, RpcError> {
    if key !in fields then Ok(UnknownType)
    else
      var name := TextField(fields, key);
      if name.Err? then Err(Malformed)
      else match lib.readType(name.value)
        case Some(kind) => Ok(kind)
        case None => Err(Malformed)
  }

  /** The parameters: absent and null are both no fields at all; anything but an object is refused. */
  function ParamsOf(fields: map<string, Json>): Result<map<string, Json>, RpcError> {
    if "params" !in fields then Ok(map[])
    else match fields["params"]
      case Null => Ok(map[])
      case Object(params) => Ok(params)
      case _ => Err(Malformed)
  }

  function ReadCandidate(params: map<string, Json>): Result<Rpc, RpcError> {
    var candidate, mid := TextField(params, "candidate"), OptionalText(params, "sdpMid");
    var index, fragment := OptionalIndex(params, "sdpMLineIndex"), OptionalText(params, "usernameFragment");
    var target := TextField(params, "target");
    if candidate.Err? || mid.Err? || index.Err? || fragment.Err? || target.Err? then Err(Malformed)
    else Ok(IceCandidateRpc(Head(VERSION, ICE_CANDIDATE),
              Candidate(candidate.value, mid.value, index.value, fragment.value), target.value))
  }

  function ReadDescription(lib: Library, params: map<string, Json>): Result<(Description, string), RpcError> {
    var kind, sdp, target := TypeField(lib, params, "type"), TextField(params, "sdp"), TextField(params, "target");
    if kind.Err? || sdp.Err? || target.Err? then Err(Malformed)
    else Ok((Description(kind.value, sdp.value), target.value))
  }

  /** An offer's description may come packed; text that is not base64 is taken as it is. */
  function OfferText(lib: Library, sdp: string): Result<string, RpcError> {
    if sdp == "" || !ValidBase64(sdp) then Ok(sdp)
    else match lib.unpack(sdp)
      case Some(text) => Ok(text)
      case None => Err(Malformed)
  }

  function ReadSubscription(params: map<string, Json>): Result<string, RpcError> { TextField(params, "user_id") }

  function FromFields(lib: Library, m: string, params: map<string, Json>): Result<Rpc, RpcError> {
    if m == ICE_CANDIDATE then ReadCandidate(params)
    else if m == ANSWER then
      match ReadDescription(lib, params)
      case Err(e) => Err(e)
      case Ok((d, target)) => Ok(SdpRpc(Head(VERSION, ANSWER), d, target))
    else if m == OFFER then
      match ReadDescription(lib, params)
      case Err(e) => Err(e)
      case Ok((d, target)) =>
        (match OfferText(lib, d.sdp)
         case Err(e) => Err(e)
         case Ok(text) => Ok(SdpRpc(Head(VERSION, OFFER), d.(sdp := text), target)))
    else if m == CLOSE_SESSION then Ok(CloseSessionRpc(Head(VERSION, CLOSE_SESSION)))
    else if m == PUBLISH then Ok(StartStreamRpc(Head(VERSION, PUBLISH)))
    else if m == PUBLISH_STOP then Ok(StopStreamRpc(Head(VERSION, PUBLISH_STOP)))
    else if m == JOIN then Ok(JoinRpc(Head(VERSION, JOIN)))
    else if m == SUBSCRIBE then
      match ReadSubscription(params)
      case Err(e) => Err(e)
      case Ok(user) => Ok(SubscribeStreamRpc(Head(VERSION, SUBSCRIBE), user))
    else if m == SUBSCRIBE_CANCEL then
      match ReadSubscription(params)
      case Err(e) => Err(e)
      case Ok(user) => Ok(SubscribeStreamCancelRpc(Head(VERSION, SUBSCRIBE_CANCEL), user))
    else Err(UnknownMethod)
  }

  /** Reads one message: the head and the parameters first, then the parameters again by the method. A null
      document has an empty method. */
  function FromReader(lib: Library, input: Input): Result<Rpc, RpcError> {
    match input
    case Unreadable => Err(Malformed)
    case Document(Null) => Err(UnknownMethod)
    case Document(Object(fields)) =>
      var version, m, params := TextField(fields, "jsonrpc"), TextField(fields, "method"), ParamsOf(fields);
      if version.Err? || m.Err? || params.Err? then Err(Malformed) else FromFields(lib, m.value, params.value)
    case Document(_) => Err(Malformed)
  }

  // ---- Printing ----

  function TypeName(t: SdpType): string {
    match t
    case UnknownType => "unknown"
    case OfferType => "offer"
    case PranswerType => "pranswer"
    case AnswerType => "answer"
    case RollbackType => "rollback"
  }

  function OrNull(o: Option<string>): Json { match o case Some(s) => Text(s) case None => Null }

  function IndexOrNull(o: Option<LineIndex>): Json { match o case Some(n) => Number(n as real) case None => Null }

  function PrintCandidate(c: Candidate, target: string): map<string, Json> {
    map["candidate" := Text(c.candidate), "sdpMid" := OrNull(c.sdpMid),
        "sdpMLineIndex" := IndexOrNull(c.sdpMLineIndex), "usernameFragment" := OrNull(c.usernameFragment),
        "target" := Text(target)]
  }

  function PrintDescription(d: Description, target: string): map<string, Json> {
    map["type" := Text(TypeName(d.kind)), "sdp" := Text(d.sdp), "target" := Text(target)]
  }

  function PrintParams(r: Rpc): Json {
    match r
    case IceCandidateRpc(_, c, target) => Object(PrintCandidate(c, target))
    case SdpRpc(_, d, target) => Object(PrintDescription(d, target))
    case SubscribeStreamRpc(_, user) => Object(map["user_id" := Text(user)])
    case SubscribeStreamCancelRpc(_, user) => Object(map["user_id" := Text(user)])
    case _ => Null
  }

  function ToJson(r: Rpc): Json {
    Object(map["jsonrpc" := Text(r.head.version), "method" := Text(r.head.method_), "params" := PrintParams(r)])
  }

  // ---- Parsing undoes printing ----

  lemma ReadBackCandidate(c: Candidate, target: string)
    ensures ReadCandidate(PrintCandidate(c, target)) ==
            Ok(IceCandidateRpc(Head(VERSION, ICE_CANDIDATE), c, target))
  {
    var params := PrintCandidate(c, target);
    assert TextField(params, "candidate") == Ok(c.candidate);
    assert OptionalText(params, "sdpMid") == Ok(c.sdpMid);
    assert OptionalIndex(params, "sdpMLineIndex") == Ok(c.sdpMLineIndex);
    assert OptionalText(params, "usernameFragment") == Ok(c.usernameFragment);
    assert TextField(params, "target") == Ok(target);
  }

  lemma ReadBackDescription(lib: Library, d: Description, target: string)
    ensures ReadDescription(lib, PrintDescription(d, target)) ==
            match lib.readType(TypeName(d.kind))
            case Some(kind) => Ok((d.(kind := kind), target))
            case None => Err(Malformed)
  {
    var params := PrintDescription(d, target);
    assert TextField(params, "type") == Ok(TypeName(d.kind));
    assert TextField(params, "sdp") == Ok(d.sdp);
    assert TextField(params, "target") == Ok(target);
  }

  /** Reading a printed message is reading its parameters by its method. */
  lemma ReadBackHead(lib: Library, r: Rpc)
    ensures FromReader(lib, Document(ToJson(r))) ==
            FromFields(lib, r.head.method_, match PrintParams(r) case Object(params) => params case _ => map[])
  {
    var fields := ToJson(r).fields;
    assert TextField(fields, "jsonrpc") == Ok(r.head.version);
    assert TextField(fields, "method") == Ok(r.head.method_);
  }

  /** What printing and reading keep: a description needs a type name that is read back, and an offer's text
      must be empty, or not base64, or unpack to itself. */
  predicate Survives(lib: Library, r: Rpc) {
    r.SdpRpc? ==>
      && lib.readType(TypeName(r.description.kind)) == Some(r.description.kind)
      && (r.head.method_ == OFFER ==>
            || r.description.sdp == ""
            || !ValidBase64(r.description.sdp)
            || lib.unpack(r.description.sdp) == Some(r.description.sdp))
  }

  /** Parsing undoes printing, for every kind of message, iff the message survives in that sense. */
  lemma ParsePrint(lib: Library, r: Rpc)
    requires WellMade(r)
    ensures FromReader(lib, Document(ToJson(r))) == Ok(r) <==> Survives(lib, r)
  {
    ReadBackHead(lib, r);
    match r
    case IceCandidateRpc(_, c, target) => ReadBackCandidate(c, target);
    case SdpRpc(_, d, target) => ReadBackDescription(lib, d, target);
    case _ =>
  }

  /** In particular a description with one of the names the library knows and text starting `v=0`. */
  lemma PlainDescriptionSurvives(lib: Library, r: Rpc)
    requires WellMade(r) && r.SdpRpc? && "v=0" <= r.description.sdp
    requires lib.readType(TypeName(r.description.kind)) == Some(r.description.kind)
    ensures FromReader(lib, Document(ToJson(r))) == Ok(r)
  {
    PlainTextIsNotBase64(r.description.sdp);
    ParsePrint(lib, r);
  }

  /** A way of packing that the library undoes. */
  ghost predicate Packs(lib: Library, pack: string -> string) {
    forall text :: pack(text) != "" && ValidBase64(pack(text)) && lib.unpack(pack(text)) == Some(text)
  }

  /** An offer sent packed is read as the offer with its text unpacked. */
  lemma PackedOffer(lib: Library, pack: string -> string, r: Rpc)
    requires WellMade(r) && r.SdpRpc? && r.head.method_ == OFFER && Packs(lib, pack)
    requires lib.readType(TypeName(r.description.kind)) == Some(r.description.kind)
    ensures var sent := r.(description := r.description.(sdp := pack(r.description.sdp)));
            FromReader(lib, Document(ToJson(sent))) == Ok(r)
  {
    var packed := r.description.(sdp := pack(r.description.sdp));
    var sent := r.(description := packed);
    ReadBackHead(lib, sent);
    ReadBackDescription(lib, packed, r.target);
    assert OfferText(lib, packed.sdp) == Ok(r.description.sdp);
  }

  /** So an offer whose own text is packed text comes back with that text unpacked, and is not the offer that was
      printed. */
  lemma PackedTextIsLost(lib: Library, pack: string -> string, target: string, text: string)
    requires Packs(lib, pack) && lib.readType("offer") == Some(OfferType) && "v=0" <= text
    ensures var meant := SdpRpc(Head(VERSION, OFFER), Description(OfferType, text), target);
            var sent := meant.(description := Description(OfferType, pack(text)));
            WellMade(sent) && sent != meant && FromReader(lib, Document(ToJson(sent))) == Ok(meant)
  {
    PackedOffer(lib, pack, SdpRpc(Head(VERSION, OFFER), Description(OfferType, text), target));
    PlainTextIsNotBase64(text);
  }

  /** Whatever is read has the concrete type its method calls for, and the current version. */
  lemma ParsedIsWellMade(lib: Library, input: Input)
    ensures FromReader(lib, input).Ok? ==> WellMade(FromReader(lib, input).value)
  {
    if input.Document? && input.doc.Object? {
      var fields := input.doc.fields;
      if TextField(fields, "method").Ok? && ParamsOf(fields).Ok? {
        FromFieldsWellMade(lib, TextField(fields, "method").value, ParamsOf(fields).value);
      }
    }
  }

  lemma FromFieldsWellMade(lib: Library, m: string, params: map<string, Json>)
    ensures FromFields(lib, m, params).Ok? ==>
      WellMade(FromFields(lib, m, params).value) && FromFields(lib, m, params).value.head.method_ == m
  {
  }

  /** A message read and then printed and read again is unchanged, unless it is an offer whose unpacked text
      happens to be packed text again, or a description whose type name is not read back. */
  lemma ReadingIsStable(lib: Library, input: Input)
    requires FromReader(lib, input).Ok? && Survives(lib, FromReader(lib, input).value)
    ensures FromReader(lib, Document(ToJson(FromReader(lib, input).value))) == FromReader(lib, input)
  {
    ParsedIsWellMade(lib, input);
    ParsePrint(lib, FromReader(lib, input).value);
  }
}
