// The session description a participant sends to the transcoder (internal/rtc/participant.go:91-116):
// one media line (section 5.14 of RFC 8866) per enabled codec, with the UDP port allocated for it.
module TranscoderSdp {
  import opened Common
  import opened Codecs

  datatype MediaLine = MediaLine(
    media: string, payloadType: nat, codecName: string, clockRate: nat, channels: nat, fmtpLine: string, port: GoInt)

  /** A codec with the kind it is listed under. */
  type Entry = (Kind, CodecParams)

  function TrimPrefix(s: string, prefix: string): string {
    if prefix <= s then s[|prefix|..] else s
  }

  function KindName(k: Kind): string {
    match k case Audio => "audio" case Video => "video" case UnknownKind => "unknown"
  }

  function Line(e: Entry, port: GoInt): MediaLine {
    var cap := e.1.capability;
    MediaLine(KindName(e.0), e.1.payloadType, TrimPrefix(TrimPrefix(cap.mimeType, "audio/"), "video/"),
              cap.clockRate, cap.channels, cap.fmtpLine, port)
  }

  function Tag(k: Kind, cs: seq<CodecParams>): seq<Entry> {
    seq(|cs|, i requires 0 <= i < |cs| => (k, cs[i]))
  }

  /** A filled codec table: no two codecs share a payload type. */
  type CodecList = t: Table | Distinct(PayloadTypes(t.audio + t.video)) witness Table([], [])

  /** What the codec cache holds once it is filled under a configuration. */
  function CodecsFor(config: Config): CodecList {
    PayloadTypesDistinct(config);
    Table(AudioFor(config), VideoFor(config))
  }

  /** The codecs in the order one iteration over the two-key table visits them. */
  function Order(audioFirst: bool, c: CodecList): seq<Entry> {
    if audioFirst then Tag(Audio, c.audio) + Tag(Video, c.video)
    else Tag(Video, c.video) + Tag(Audio, c.audio)
  }

  function Payloads(es: seq<Entry>): set<nat> {
    set e | e in es :: e.1.payloadType
  }

  /** The payload types every participant needs a port for. */
  function Needs(c: CodecList): set<nat> { Payloads(Order(true, c)) }

  predicate DistinctPayloads(es: seq<Entry>) {
    forall i, j :: 0 <= i < j < |es| ==> es[i].1.payloadType != es[j].1.payloadType
  }

  function Lines(es: seq<Entry>, ports: map<nat, GoInt>): seq<MediaLine>
    requires Payloads(es) <= ports.Keys
  {
    seq(|es|, i requires 0 <= i < |es| =>
      assert es[i] in es && es[i].1.payloadType in Payloads(es);
      Line(es[i], ports[es[i].1.payloadType]))
  }

  lemma PayloadsMember(es: seq<Entry>, i: nat)
    requires i < |es|
    ensures es[i].1.payloadType in Payloads(es)
  {
    assert es[i] in es;
  }

  lemma {:induction false} PayloadsSize(es: seq<Entry>)
    requires DistinctPayloads(es)
    ensures |Payloads(es)| == |es|
  {
    if es != [] {
      var n := |es| - 1;
      var init := es[..n];
      PayloadsSize(init);
      assert Payloads(es) == Payloads(init) + {es[n].1.payloadType} by {
        PayloadsMember(es, n);
        forall p | p in Payloads(es) ensures p in Payloads(init) + {es[n].1.payloadType} {
          var e :| e in es && e.1.payloadType == p;
          assert e in init || e == es[n];
        }
        forall p | p in Payloads(init) ensures p in Payloads(es) {
          var e :| e in init && e.1.payloadType == p;
          assert e in es;
        }
      }
      assert es[n].1.payloadType !in Payloads(init);
    }
  }

  lemma TagsDistinct(j: Kind, a: seq<CodecParams>, k: Kind, b: seq<CodecParams>)
    requires Distinct(PayloadTypes(a + b))
    ensures DistinctPayloads(Tag(j, a) + Tag(k, b))
  {
    var es := Tag(j, a) + Tag(k, b);
    forall i | 0 <= i < |es| ensures es[i].1.payloadType == PayloadTypes(a + b)[i] {
    }
  }

  lemma SwapDistinct(a: seq<CodecParams>, b: seq<CodecParams>)
    requires Distinct(PayloadTypes(a + b))
    ensures Distinct(PayloadTypes(b + a))
  {
    var ab, ba := PayloadTypes(a + b), PayloadTypes(b + a);
    forall i, j | 0 <= i < j < |ba| ensures ba[i] != ba[j] {
      assert ba[i] == ab[if i < |b| then i + |a| else i - |b|];
      assert ba[j] == ab[if j < |b| then j + |a| else j - |b|];
    }
  }

  lemma OrderFacts(audioFirst: bool, c: CodecList)
    ensures DistinctPayloads(Order(audioFirst, c))
    ensures Payloads(Order(audioFirst, c)) == Needs(c)
    ensures |Order(audioFirst, c)| == |Needs(c)|
  {
    var a, v := c.audio, c.video;
    SwapDistinct(a, v);
    TagsDistinct(Audio, a, Video, v);
    TagsDistinct(Video, v, Audio, a);
    var es := Order(audioFirst, c);
    assert forall e :: e in es <==> e in Order(true, c);
    PayloadsSize(es);
  }

  /** A description and a port map say the same thing: one line per port, one port per line. */
  predicate Advertises(sdp: seq<MediaLine>, ports: map<nat, GoInt>) {
    && |sdp| == |ports|
    && (forall i :: 0 <= i < |sdp| ==> sdp[i].payloadType in ports && sdp[i].port == ports[sdp[i].payloadType])
    && (forall pt :: pt in ports ==> exists i :: 0 <= i < |sdp| && sdp[i].payloadType == pt)
    && (forall i, j :: 0 <= i < j < |sdp| ==> sdp[i].payloadType != sdp[j].payloadType && sdp[i].port != sdp[j].port)
  }

  lemma LinesAdvertise(es: seq<Entry>, ports: map<nat, GoInt>)
    requires DistinctPayloads(es) && Payloads(es) == ports.Keys && Injective(ports)
    ensures Advertises(Lines(es, ports), ports)
  {
    var sdp := Lines(es, ports);
    PayloadsSize(es);
    assert |ports.Keys| == |ports|;
    forall i | 0 <= i < |es|
      ensures es[i].1.payloadType in ports && sdp[i].payloadType == es[i].1.payloadType
      ensures sdp[i].port == ports[es[i].1.payloadType]
    {
      PayloadsMember(es, i);
    }
    forall pt | pt in ports ensures exists i :: 0 <= i < |sdp| && sdp[i].payloadType == pt {
      var i := EntryOf(es, pt);
      assert sdp[i].payloadType == pt;
    }
  }

  lemma EntryOf(es: seq<Entry>, pt: nat) returns (i: nat)
    requires pt in Payloads(es)
    ensures i < |es| && es[i].1.payloadType == pt
  {
    var e :| e in es && e.1.payloadType == pt;
    i :| 0 <= i < |es| && es[i] == e;
  }

  /** Every enabled codec has its line, with the port stored for its payload type. */
  predicate Describes(c: CodecList, sdp: seq<MediaLine>, ports: map<nat, GoInt>) {
    forall e :: e in Order(true, c) ==> e.1.payloadType in ports && Line(e, ports[e.1.payloadType]) in sdp
  }

  /** Whatever order the codec table is visited in, the description built from it is in bijection with the
      port map, and it describes every enabled codec. */
  lemma SdpBijection(audioFirst: bool, c: CodecList, ports: map<nat, GoInt>)
    requires Injective(ports) && ports.Keys == Needs(c)
    ensures Payloads(Order(audioFirst, c)) <= ports.Keys
    ensures Advertises(Lines(Order(audioFirst, c), ports), ports)
    ensures Describes(c, Lines(Order(audioFirst, c), ports), ports)
  {
    OrderFacts(audioFirst, c);
    var es := Order(audioFirst, c);
    LinesAdvertise(es, ports);
    forall e | e in Order(true, c)
      ensures e.1.payloadType in ports && Line(e, ports[e.1.payloadType]) in Lines(es, ports)
    {
      assert e in es;
      var i :| 0 <= i < |es| && es[i] == e;
      PayloadsMember(es, i);
      assert Lines(es, ports)[i] == Line(e, ports[e.1.payloadType]);
    }
  }

  /** Text that starts with a kind's name and a slash. */
  predicate Labelled(kind: string, s: string) { |kind| < |s| && s[..|kind|] == kind && s[|kind|] == '/' }

  lemma VideoLabel(i: nat)
    ensures Labelled("video", VideoMime(i))
  {
    match i
    case 0 => assert "video/VP8"[..5] == "video";
    case 1 => assert "video/VP9"[..5] == "video";
    case 2 => assert "video/VP9"[..5] == "video";
    case 6 => assert "video/AV1"[..5] == "video";
    case _ => assert "video/H264"[..5] == "video";
  }

  lemma TrimVideo(mime: string)
    requires Labelled("video", mime)
    ensures "video" + "/" + TrimPrefix(TrimPrefix(mime, "audio/"), "video/") == mime
  {
    assert mime[0] == mime[..5][0] == 'v' && "audio/"[0] == 'a';
    assert !("audio/" <= mime);
    assert mime[..6] == mime[..5] + [mime[5]] == "video/";
    assert "video" + "/" == "video/" && mime == mime[..6] + mime[6..];
  }

  lemma TrimOpus()
    ensures "audio" + "/" + TrimPrefix(TrimPrefix("audio/opus", "audio/"), "video/") == "audio/opus"
  {
    assert "audio/opus"[6..] == "opus" && "audio/opus"[..6] == "audio/";
    assert !("video/" <= "opus");
  }

  lemma VideoFromTable(config: Config, i: nat)
    requires i < |VideoFor(config)|
    ensures Labelled("video", VideoFor(config)[i].capability.mimeType)
  {
    var at := SelectedMeaning(config.enabled, VideoTable(config.videoFeedback));
    VideoLabel(at[i]);
  }

  lemma AudioFromTable(config: Config, i: nat)
    requires i < |AudioFor(config)|
    ensures AudioFor(config)[i].capability.mimeType == "audio/opus"
  {
    var at := SelectedMeaning(config.enabled, AudioTable(config.audioFeedback));
    assert AudioFor(config)[i] == AudioTable(config.audioFeedback)[at[i]];
  }

  /** Under every configuration a media line names its codec: the media kind and the codec name put together
      are the codec's MIME type. */
  lemma LinesNameTheirCodecs(config: Config, i: nat, port: GoInt)
    ensures i < |AudioFor(config)| ==>
      var l := Line((Audio, AudioFor(config)[i]), port);
      l.media + "/" + l.codecName == AudioFor(config)[i].capability.mimeType
    ensures i < |VideoFor(config)| ==>
      var l := Line((Video, VideoFor(config)[i]), port);
      l.media + "/" + l.codecName == VideoFor(config)[i].capability.mimeType
  {
    if i < |AudioFor(config)| {
      AudioFromTable(config, i);
      TrimOpus();
    }
    if i < |VideoFor(config)| {
      VideoFromTable(config, i);
      TrimVideo(VideoFor(config)[i].capability.mimeType);
    }
  }

  /** The port a track is forwarded to: a payload type without a port reads as zero. */
  function TrackPort(ports: map<nat, GoInt>, payloadType: nat): GoInt {
    if payloadType in ports then ports[payloadType] else 0
  }

  /** A track goes to an advertised port iff its payload type has a media line, and then to that line's
      port. A range with port zero adds the one exception: a payload type without a line goes to port zero. */
  lemma ForwardedAsAdvertised(sdp: seq<MediaLine>, ports: map<nat, GoInt>, payloadType: nat)
    requires Advertises(sdp, ports)
    ensures (exists i :: 0 <= i < |sdp| && sdp[i].port == TrackPort(ports, payloadType)) <==>
            (exists i :: 0 <= i < |sdp| && sdp[i].payloadType == payloadType) || 0 in ports.Values
    ensures forall i :: 0 <= i < |sdp| && sdp[i].payloadType == payloadType ==>
              sdp[i].port == TrackPort(ports, payloadType)
  {
    forall i | 0 <= i < |sdp| && sdp[i].port == 0 ensures 0 in ports.Values {
      assert sdp[i].port in ports.Values;
    }
    if 0 in ports.Values {
      var k :| k in ports && ports[k] == 0;
      assert exists i :: 0 <= i < |sdp| && sdp[i].payloadType == k && sdp[i].port == 0;
    }
  }
}
