// The router: one goroutine turning bus messages into callbacks (internal/eventbus/router.go).
module Routers {
  import opened Common
  import opened Rpcs

  /** A message from the bus: an envelope that cannot be decoded, or a user and the bytes of an RPC. */
  datatype Message = BadEnvelope | Envelope(user: string, rpc: Input)

  datatype Callback = OnIce | OnOffer | OnJoin | OnClose | OnPublish | OnStop | OnSubscribe | OnUnsubscribe

  /** One callback with its arguments. */
  datatype Call =
    | IceCall(user: string, candidate: Candidate, target: string)
    | OfferCall(user: string, description: Description, target: string)
    | JoinCall(user: string)
    | CloseCall(user: string)
    | PublishCall(user: string)
    | StopCall(user: string)
    | SubscribeCall(user: string, stream: string)
    | UnsubscribeCall(user: string, stream: string)

  function CallbackOf(c: Call): Callback {
    match c
    case IceCall(_, _, _) => OnIce
    case OfferCall(_, _, _) => OnOffer
    case JoinCall(_) => OnJoin
    case CloseCall(_) => OnClose
    case PublishCall(_) => OnPublish
    case StopCall(_) => OnStop
    case SubscribeCall(_, _) => OnSubscribe
    case UnsubscribeCall(_, _) => OnUnsubscribe
  }

  /** What a well-formed RPC asks for; answers ask for nothing. */
  function Asked(user: string, r: Rpc): Option<Call> {
    match r
    case IceCandidateRpc(_, candidate, target) => Some(IceCall(user, candidate, target))
    case SdpRpc(head, d, target) => if head.method_ == OFFER then Some(OfferCall(user, d, target)) else None
    case JoinRpc(_) => Some(JoinCall(user))
    case CloseSessionRpc(_) => Some(CloseCall(user))
    case StartStreamRpc(_) => Some(PublishCall(user))
    case StopStreamRpc(_) => Some(StopCall(user))
    case SubscribeStreamRpc(_, stream) => Some(SubscribeCall(user, stream))
    case SubscribeStreamCancelRpc(_, stream) => Some(UnsubscribeCall(user, stream))
  }

  function ParseRpc(lib: Library, m: Message): Result<(string, Rpc), RpcError> {
    match m
    case BadEnvelope => Err(Malformed)
    case Envelope(user, input) =>
      match FromReader(lib, input)
      case Err(e) => Err(e)
      case Ok(r) => Ok((user, r))
  }

  function CallFor(lib: Library, m: Message): Option<Call> {
    match ParseRpc(lib, m) case Err(_) => None case Ok((user, r)) => Asked(user, r)
  }

  /** The order-preserving image of a message sequence: one call for each message that asks for one. */
  function Image(lib: Library, msgs: seq<Message>): seq<Call> {
    if msgs == [] then []
    else Image(lib, msgs[..|msgs| - 1]) + AsList(CallFor(lib, msgs[|msgs| - 1]))
  }

  function AsList(c: Option<Call>): seq<Call> { match c case Some(call) => [call] case None => [] }

  class Router {
    /** The callbacks that have been registered; calling any other is a crash of the process. */
    var registered: set<Callback>
    /** The callbacks called so far. */
    var calls: seq<Call>
    /** How often a message turned out not to have the type its method calls for. */
    var failedConversions: nat

    constructor ()
      ensures registered == {} && calls == [] && failedConversions == 0
    {
      registered, calls, failedConversions := {}, [], 0;
    }

    method Register(c: Callback)
      modifies this`registered
      ensures registered == old(registered) + {c}
    {
      registered := registered + {c};
    }

    predicate Crashes(c: Option<Call>)
      reads this`registered
    {
      c.Some? && CallbackOf(c.value) !in registered
    }

    function Trace(c: Option<Call>): seq<Call>
      reads this`registered
    {
      if Crashes(c) then [] else AsList(c)
    }

    /** Calls back; an error the callback returns is only logged. */
    method Invoke(c: Call) returns (crashed: bool)
      modifies this`calls
      ensures crashed == Crashes(Some(c)) && calls == old(calls) + Trace(Some(c))
    {
      crashed := CallbackOf(c) !in registered;
      if !crashed {
        calls := calls + [c];
      }
    }

    /** Dispatches on the method, then checks the concrete type where the message has parameters. */
    method Dispatch(user: string, r: Rpc) returns (crashed: bool)
      modifies this`calls, this`failedConversions
      ensures WellMade(r) ==> failedConversions == old(failedConversions)
      ensures WellMade(r) ==> crashed == Crashes(Asked(user, r)) && calls == old(calls) + Trace(Asked(user, r))
    {
      crashed := false;
      var m := r.head.method_;
      if m == ICE_CANDIDATE {
        if !r.IceCandidateRpc? {
          failedConversions := failedConversions + 1;
          return;
        }
        crashed := Invoke(IceCall(user, r.candidate, r.target));
      } else if m == JOIN {
        if !r.JoinRpc? {
          failedConversions := failedConversions + 1;
          return;
        }
        crashed := Invoke(JoinCall(user));
      } else if m == OFFER {
        if !r.SdpRpc? {
          failedConversions := failedConversions + 1;
          return;
        }
        crashed := Invoke(OfferCall(user, r.description, r.target));
      } else if m == CLOSE_SESSION {
        crashed := Invoke(CloseCall(user));
      } else if m == PUBLISH {
        crashed := Invoke(PublishCall(user));
      } else if m == PUBLISH_STOP {
        crashed := Invoke(StopCall(user));
      } else if m == SUBSCRIBE {
        if !r.SubscribeStreamRpc? {
          failedConversions := failedConversions + 1;
          return;
        }
        crashed := Invoke(SubscribeCall(user, r.user));
      } else if m == SUBSCRIBE_CANCEL {
        if !r.SubscribeStreamCancelRpc? {
          failedConversions := failedConversions + 1;
          return;
        }
        crashed := Invoke(UnsubscribeCall(user, r.user));
      }
    }

    /** One message from the bus; one that cannot be parsed is only logged. */
    method Handle(lib: Library, m: Message) returns (crashed: bool)
      modifies this`calls, this`failedConversions
      ensures failedConversions == old(failedConversions)
      ensures crashed == Crashes(CallFor(lib, m)) && calls == old(calls) + Trace(CallFor(lib, m))
    {
      crashed := false;
      var parsed := ParseRpc(lib, m);
      if parsed.Ok? {
        ParsedIsWellMade(lib, m.rpc);
        crashed := Dispatch(parsed.value.0, parsed.value.1);
      }
    }

    method HandleAt(lib: Library, msgs: seq<Message>, i: nat, ghost asked: seq<Option<Call>>) returns (crashed: bool)
      requires Reads(lib, msgs, asked) && i < |msgs|
      modifies this`calls, this`failedConversions
      ensures failedConversions == old(failedConversions)
      ensures crashed == Crashes(asked[i]) && calls == old(calls) + Trace(asked[i])
    {
      assert asked[i] == CallFor(lib, msgs[i]);
      crashed := Handle(lib, msgs[i]);
    }

    method HandleAll(lib: Library, msgs: seq<Message>, ghost asked: seq<Option<Call>>) returns (handled: nat)
      requires Reads(lib, msgs, asked)
      modifies this`calls, this`failedConversions
      ensures failedConversions == old(failedConversions)
      ensures handled <= |msgs| && calls == old(calls) + Flatten(asked[..handled])
      ensures forall i :: 0 <= i < handled ==> !Crashes(asked[i])
      ensures handled < |msgs| ==> Crashes(asked[handled])
    {
      handled := 0;
      while handled < |msgs|
        invariant handled <= |msgs| && failedConversions == old(failedConversions)
        invariant calls == old(calls) + Flatten(asked[..handled])
        invariant forall i :: 0 <= i < handled ==> !Crashes(asked[i])
      {
        assert asked[..handled + 1][..handled] == asked[..handled];
        var crashed := HandleAt(lib, msgs, handled, asked);
        if crashed {
          return;
        }
        handled := handled + 1;
      }
    }

    /** Handles messages until told to stop. No conversion ever fails, and the calls made are the image of the
        messages handled: all of them, or those before the first that asks for an unregistered callback. */
    method Start(lib: Library, msgs: seq<Message>) returns (handled: nat)
      modifies this`calls, this`failedConversions
      ensures failedConversions == old(failedConversions)
      ensures handled <= |msgs| && calls == old(calls) + Image(lib, msgs[..handled])
      ensures |calls| == |old(calls)| + Requests(lib, msgs[..handled])
      ensures forall i :: 0 <= i < handled ==> !Crashes(CallFor(lib, msgs[i]))
      ensures handled < |msgs| ==> Crashes(CallFor(lib, msgs[handled]))
    {
      ghost var asked := seq(|msgs|, i requires 0 <= i < |msgs| => CallFor(lib, msgs[i]));
      handled := HandleAll(lib, msgs, asked);
      ImageIsFlat(lib, msgs[..handled], asked[..handled]);
      OneCallPerRequest(lib, msgs[..handled]);
    }
  }

  /** What each message asks for. */
  ghost predicate Reads(lib: Library, msgs: seq<Message>, asked: seq<Option<Call>>) {
    && |asked| == |msgs|
    && forall i {:trigger CallFor(lib, msgs[i])} :: 0 <= i < |msgs| ==> asked[i] == CallFor(lib, msgs[i])
  }

  function Flatten(asked: seq<Option<Call>>): seq<Call> {
    if asked == [] then [] else Flatten(asked[..|asked| - 1]) + AsList(asked[|asked| - 1])
  }

  lemma {:induction false} ImageIsFlat(lib: Library, msgs: seq<Message>, asked: seq<Option<Call>>)
    requires |asked| == |msgs| && forall i :: 0 <= i < |msgs| ==> asked[i] == CallFor(lib, msgs[i])
    ensures Image(lib, msgs) == Flatten(asked)
  {
    if msgs != [] {
      ImageIsFlat(lib, msgs[..|msgs| - 1], asked[..|msgs| - 1]);
    }
  }

  // ---- What the image is ----

  lemma {:induction false} ImageAppend(lib: Library, a: seq<Message>, b: seq<Message>)
    ensures Image(lib, a + b) == Image(lib, a) + Image(lib, b)
    decreases |b|
  {
    if b == [] {
      assert a + b == a;
    } else {
      ImageAppend(lib, a, b[..|b| - 1]);
      assert (a + b)[..|a + b| - 1] == a + b[..|b| - 1];
    }
  }

  /** Messages that cannot be read, and answers, ask for nothing. */
  predicate Silent(lib: Library, m: Message) {
    ParseRpc(lib, m).Err? || ParseRpc(lib, m).value.1.head.method_ == ANSWER
  }

  function Requests(lib: Library, msgs: seq<Message>): nat {
    if msgs == [] then 0
    else Requests(lib, msgs[..|msgs| - 1]) + if Silent(lib, msgs[|msgs| - 1]) then 0 else 1
  }

  lemma NoTrace(lib: Library, m: Message)
    ensures CallFor(lib, m).None? <==> Silent(lib, m)
  {
    if m.Envelope? { ParsedIsWellMade(lib, m.rpc); }
  }

  /** Every message that is readable and not an answer makes one call, and no other makes any. */
  lemma {:induction false} OneCallPerRequest(lib: Library, msgs: seq<Message>)
    ensures |Image(lib, msgs)| == Requests(lib, msgs)
  {
    if msgs != [] {
      OneCallPerRequest(lib, msgs[..|msgs| - 1]);
      NoTrace(lib, msgs[|msgs| - 1]);
    }
  }

  datatype Sent = Sent(user: string, rpc: Rpc)

  function Post(sent: seq<Sent>): seq<Message> {
    seq(|sent|, i requires 0 <= i < |sent| => Envelope(sent[i].user, Document(ToJson(sent[i].rpc))))
  }

  lemma PostedIsAsked(lib: Library, s: Sent)
    requires WellMade(s.rpc) && Survives(lib, s.rpc)
    ensures CallFor(lib, Envelope(s.user, Document(ToJson(s.rpc)))) == Asked(s.user, s.rpc)
  {
    ParsePrint(lib, s.rpc);
  }

  predicate Request(lib: Library, s: Sent) {
    WellMade(s.rpc) && Survives(lib, s.rpc) && s.rpc.head.method_ != ANSWER
  }

  lemma {:induction false} FlattenFull(asked: seq<Option<Call>>)
    requires forall i :: 0 <= i < |asked| ==> asked[i].Some?
    ensures |Flatten(asked)| == |asked| && forall i :: 0 <= i < |asked| ==> Some(Flatten(asked)[i]) == asked[i]
  {
    if asked != [] {
      FlattenFull(asked[..|asked| - 1]);
    }
  }

  function AskedBy(sent: seq<Sent>): seq<Option<Call>> {
    seq(|sent|, i requires 0 <= i < |sent| => Asked(sent[i].user, sent[i].rpc))
  }

  /** From sender to callback: printed requests that survive printing each cause exactly one call, in order,
      with the sender's identity and the arguments that were sent. */
  lemma SentIsCalled(lib: Library, sent: seq<Sent>)
    requires forall i :: 0 <= i < |sent| ==> Request(lib, sent[i])
    ensures var calls := Image(lib, Post(sent));
      |calls| == |sent| && forall i :: 0 <= i < |sent| ==> Some(calls[i]) == Asked(sent[i].user, sent[i].rpc)
  {
    forall i | 0 <= i < |sent|
      ensures CallFor(lib, Post(sent)[i]) == AskedBy(sent)[i] && AskedBy(sent)[i].Some?
    {
      assert Request(lib, sent[i]);
      PostedIsAsked(lib, sent[i]);
    }
    ImageIsFlat(lib, Post(sent), AskedBy(sent));
    FlattenFull(AskedBy(sent));
  }
}
