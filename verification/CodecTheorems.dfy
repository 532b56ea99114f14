// What a configuration enables and what a description says about it, in terms of the texts of the configuration
// and of the eight codecs the server knows (internal/rtc/mediaengine.go:95-240, internal/rtc/participant.go:92-116).
module CodecTheorems {
  import opened Common
  import opened Codecs
  import opened TranscoderSdp

  // ---- What is enabled ----

  /** The payload type, MIME type and format line of each video codec on offer. */
  const VIDEO: seq<(nat, string, string)> := [
    (96, "video/VP8", ""),
    (98, "video/VP9", "profile-id=0"),
    (100, "video/VP9", "profile-id=1"),
    (125, "video/H264", "level-asymmetry-allowed=1;packetization-mode=1;profile-level-id=42e01f"),
    (108, "video/H264", "level-asymmetry-allowed=1;packetization-mode=0;profile-level-id=42e01f"),
    (123, "video/H264", "level-asymmetry-allowed=1;packetization-mode=1;profile-level-id=640032"),
    (35, "video/AV1", "")]

  const OPUS_LINE := "minptime=10;useinbandfec=1"

  function VideoOnOffer(i: nat, feedback: seq<Feedback>): CodecParams
    requires i < |VIDEO|
  {
    CodecParams(Capability(VIDEO[i].1, 90000, 0, VIDEO[i].2, feedback), VIDEO[i].0)
  }

  function OpusOnOffer(feedback: seq<Feedback>): CodecParams {
    CodecParams(Capability("audio/opus", 48000, 1, OPUS_LINE, feedback), 111)
  }

  lemma TableOnOffer(feedback: seq<Feedback>, i: nat)
    requires i < 7
    ensures VideoTable(feedback)[i] == VideoOnOffer(i, feedback)
  {
  }

  lemma SelectedIff(enabled: EnabledCodecs, table: seq<CodecParams>, p: CodecParams)
    ensures p in Selected(enabled, table) <==>
      p in table && NamedBy(enabled, p.capability.mimeType, p.capability.fmtpLine)
  {
    var at := SelectedMeaning(enabled, table);
    WantedIffNamed(enabled, p.capability);
    if p in Selected(enabled, table) {
      var i :| 0 <= i < |at| && Selected(enabled, table)[i] == p;
      assert at[i] in at;
    }
    if p in table && Wanted(enabled, p.capability) {
      var k :| 0 <= k < |table| && table[k] == p;
      var i :| 0 <= i < |at| && at[i] == k;
      assert Selected(enabled, table)[i] == p;
    }
  }

  /** Under every configuration the video codecs are exactly those of the seven that some entry names. */
  lemma VideoEnabledIff(config: Config, p: CodecParams)
    ensures p in VideoFor(config) <==>
      exists i :: 0 <= i < |VIDEO| && p == VideoOnOffer(i, config.videoFeedback)
                  && NamedBy(config.enabled, VIDEO[i].1, VIDEO[i].2)
  {
    var table := VideoTable(config.videoFeedback);
    SelectedIff(config.enabled, table, p);
    forall i | 0 <= i < |VIDEO| ensures table[i] == VideoOnOffer(i, config.videoFeedback) {
      TableOnOffer(config.videoFeedback, i);
    }
    if p in table {
      var i :| 0 <= i < |table| && table[i] == p;
      assert p == VideoOnOffer(i, config.videoFeedback);
    }
  }

  /** And opus is the one audio codec, enabled iff some entry names it. */
  lemma AudioEnabledIff(config: Config, p: CodecParams)
    ensures p in AudioFor(config) <==>
      p == OpusOnOffer(config.audioFeedback) && NamedBy(config.enabled, "audio/opus", OPUS_LINE)
  {
    SelectedIff(config.enabled, AudioTable(config.audioFeedback), p);
  }

  /** A participant needs a port for a payload type iff some entry names its codec. */
  lemma NeedsIff(config: Config, payloadType: nat)
    ensures payloadType in Needs(CodecsFor(config)) <==>
      || (payloadType == 111 && NamedBy(config.enabled, "audio/opus", OPUS_LINE))
      || exists i :: 0 <= i < |VIDEO| && VIDEO[i].0 == payloadType && NamedBy(config.enabled, VIDEO[i].1, VIDEO[i].2)
  {
    var c := CodecsFor(config);
    if payloadType in Needs(c) {
      var e :| e in Order(true, c) && e.1.payloadType == payloadType;
      assert e.1 in AudioFor(config) || e.1 in VideoFor(config);
      AudioEnabledIff(config, e.1);
      VideoEnabledIff(config, e.1);
    }
    if payloadType == 111 && NamedBy(config.enabled, "audio/opus", OPUS_LINE) {
      AudioEnabledIff(config, OpusOnOffer(config.audioFeedback));
      Listed(c, Audio, OpusOnOffer(config.audioFeedback));
    }
    if i :| 0 <= i < |VIDEO| && VIDEO[i].0 == payloadType && NamedBy(config.enabled, VIDEO[i].1, VIDEO[i].2) {
      VideoEnabledIff(config, VideoOnOffer(i, config.videoFeedback));
      Listed(c, Video, VideoOnOffer(i, config.videoFeedback));
    }
  }

  lemma Listed(c: CodecList, kind: Kind, p: CodecParams)
    requires (kind == Audio && p in c.audio) || (kind == Video && p in c.video)
    ensures (kind, p) in Order(true, c) && p.payloadType in Needs(c)
  {
    if kind == Audio {
      var i :| 0 <= i < |c.audio| && c.audio[i] == p;
      assert Order(true, c)[i] == (kind, p);
    } else {
      var i :| 0 <= i < |c.video| && c.video[i] == p;
      assert Order(true, c)[|c.audio| + i] == (kind, p);
    }
    PayloadsMember(Order(true, c), IndexOf(Order(true, c), (kind, p)));
  }

  ghost function IndexOf(es: seq<Entry>, e: Entry): (i: nat)
    requires e in es
    ensures i < |es| && es[i] == e
  {
    var i: nat :| i < |es| && es[i] == e;
    i
  }

  /** A configuration with one entry: with an empty format line it enables every codec of its MIME type, with a format
      line those that share it, up to case. */
  lemma OneEntryEnables(config: Config, k: Kind, spec: CodecSpec, i: nat)
    requires config.enabled == map[k := spec] && i < |VIDEO|
    ensures VIDEO[i].0 in Needs(CodecsFor(config)) <==>
      SameText(spec.mime, VIDEO[i].1) && (spec.fmtpLine == "" || SameText(spec.fmtpLine, VIDEO[i].2))
  {
    assert forall mime, fmtpLine :: NamedBy(config.enabled, mime, fmtpLine) <==> Names(spec, mime, fmtpLine) by {
      assert config.enabled[k] == spec;
    }
    assert forall j :: 0 <= j < |VIDEO| && VIDEO[j].0 == VIDEO[i].0 ==> j == i;
    NeedsIff(config, VIDEO[i].0);
  }

  /** The configuration the server comes with enables VP8 and nothing else: one port for each participant. */
  lemma DefaultNeedsVp8(config: Config)
    requires config.enabled == map[Video := CodecSpec("video/VP8", "")]
    ensures Needs(CodecsFor(config)) == {96}
  {
    var spec := CodecSpec("video/VP8", "");
    forall mime, fmtpLine ensures NamedBy(config.enabled, mime, fmtpLine) <==> SameText("video/VP8", mime) {
      assert config.enabled[Video] == spec;
    }
    OnlyVp8();
    assert VIDEO[0].0 == 96 && NamedBy(config.enabled, VIDEO[0].1, VIDEO[0].2);
    forall p: nat ensures p in Needs(CodecsFor(config)) <==> p == 96 {
      NeedsIff(config, p);
    }
  }

  lemma OnlyVp8()
    ensures !SameText("video/VP8", "audio/opus")
    ensures forall i :: 0 <= i < |VIDEO| ==> (SameText("video/VP8", VIDEO[i].1) <==> i == 0)
  {
    assert |"video/VP8"| == 9 && |"audio/opus"| == 10 && |"video/H264"| == 10;
    assert "video/VP8"[8] == '8' && "video/VP9"[8] == '9';
    assert "video/VP8"[6] == 'V' && "video/AV1"[6] == 'A';
  }

  // ---- What the description says ----

  /** A media line with everything the codec says about itself, each part by its name. */
  predicate LineOf(l: MediaLine, kind: string, p: CodecParams, port: GoInt) {
    && l.media == kind && l.media + "/" + l.codecName == p.capability.mimeType
    && l.payloadType == p.payloadType && l.clockRate == p.capability.clockRate && l.channels == p.capability.channels
    && l.fmtpLine == p.capability.fmtpLine && l.port == port
  }

  /** Every line is that of one enabled codec, with the port held for its payload type, and every enabled codec has
      its line. */
  ghost predicate Exact(config: Config, sdp: seq<MediaLine>, ports: map<nat, GoInt>) {
    && (forall i :: 0 <= i < |sdp| ==> LineOfEnabled(config, sdp[i], ports))
    && (forall p :: p in AudioFor(config) ==>
          p.payloadType in ports && exists i :: 0 <= i < |sdp| && LineOf(sdp[i], "audio", p, ports[p.payloadType]))
    && (forall p :: p in VideoFor(config) ==>
          p.payloadType in ports && exists i :: 0 <= i < |sdp| && LineOf(sdp[i], "video", p, ports[p.payloadType]))
  }

  ghost predicate LineOfEnabled(config: Config, l: MediaLine, ports: map<nat, GoInt>) {
    && l.payloadType in ports
    && exists p :: (p in AudioFor(config) && LineOf(l, "audio", p, ports[l.payloadType])) ||
                   (p in VideoFor(config) && LineOf(l, "video", p, ports[l.payloadType]))
  }

  lemma LineIsExact(config: Config, e: Entry, port: GoInt)
    requires e in Order(true, CodecsFor(config))
    ensures e.0 == Audio ==> e.1 in AudioFor(config) && LineOf(Line(e, port), "audio", e.1, port)
    ensures e.0 != Audio ==> e.1 in VideoFor(config) && LineOf(Line(e, port), "video", e.1, port)
  {
    if e.0 == Audio {
      var k: nat :| k < |AudioFor(config)| && AudioFor(config)[k] == e.1;
      LinesNameTheirCodecs(config, k, port);
    } else {
      var k: nat :| k < |VideoFor(config)| && VideoFor(config)[k] == e.1;
      LinesNameTheirCodecs(config, k, port);
    }
  }

  /** A description that advertises the ports and has a line for every codec is exact: no line is about anything
      else. */
  lemma DescriptionIsExact(config: Config, sdp: seq<MediaLine>, ports: map<nat, GoInt>)
    requires ports.Keys == Needs(CodecsFor(config))
    requires Advertises(sdp, ports) && Describes(CodecsFor(config), sdp, ports)
    ensures Exact(config, sdp, ports)
  {
    var c := CodecsFor(config);
    forall i | 0 <= i < |sdp| ensures LineOfEnabled(config, sdp[i], ports) {
      assert sdp[i].payloadType in Needs(c);
      var e :| e in Order(true, c) && e.1.payloadType == sdp[i].payloadType;
      LineIsExact(config, e, ports[e.1.payloadType]);
      var j :| 0 <= j < |sdp| && sdp[j] == Line(e, ports[e.1.payloadType]);
      assert i == j;
    }
    forall p | p in AudioFor(config)
      ensures p.payloadType in ports && exists i :: 0 <= i < |sdp| && LineOf(sdp[i], "audio", p, ports[p.payloadType])
    {
      Listed(c, Audio, p);
      LineIsExact(config, (Audio, p), ports[p.payloadType]);
    }
    forall p | p in VideoFor(config)
      ensures p.payloadType in ports && exists i :: 0 <= i < |sdp| && LineOf(sdp[i], "video", p, ports[p.payloadType])
    {
      Listed(c, Video, p);
      LineIsExact(config, (Video, p), ports[p.payloadType]);
    }
  }

  /** In numbers: a video line has clock rate 90000 and no channels, the audio line 48000 and one. */
  lemma LinesInNumbers(config: Config, sdp: seq<MediaLine>, ports: map<nat, GoInt>, i: nat)
    requires Exact(config, sdp, ports) && i < |sdp|
    ensures var l := sdp[i];
      || (l.media == "video" && l.clockRate == 90000 && l.channels == 0)
      || (l.media == "audio" && l.clockRate == 48000 && l.channels == 1 && l.payloadType == 111
          && l.codecName == "opus" && l.fmtpLine == OPUS_LINE)
  {
    assert LineOfEnabled(config, sdp[i], ports);
    NumbersOf(config, sdp[i], ports);
  }

  lemma NumbersOf(config: Config, l: MediaLine, ports: map<nat, GoInt>)
    requires LineOfEnabled(config, l, ports)
    ensures || (l.media == "video" && l.clockRate == 90000 && l.channels == 0)
            || (l.media == "audio" && l.clockRate == 48000 && l.channels == 1 && l.payloadType == 111
                && l.codecName == "opus" && l.fmtpLine == OPUS_LINE)
  {
    var port := ports[l.payloadType];
    if p :| p in AudioFor(config) && LineOf(l, "audio", p, port) {
      AudioEnabledIff(config, p);
      OpusName(l.codecName);
    } else {
      var p :| p in VideoFor(config) && LineOf(l, "video", p, port);
      VideoEnabledIff(config, p);
    }
  }

  lemma OpusName(name: string)
    requires "audio" + "/" + name == "audio/opus"
    ensures name == "opus"
  {
    assert name == ("audio" + "/" + name)[6..] && "audio/opus"[6..] == "opus";
  }
}
