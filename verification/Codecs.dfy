// The codec table of internal/rtc/mediaengine.go: a process-wide cache, filled on the first
// registration and handed unchanged to every later media engine.
module Codecs {
  import opened Common

  datatype Kind = UnknownKind | Audio | Video

  type Feedback = (string, string)

  datatype Capability = Capability(
    mimeType: string, clockRate: nat, channels: nat, fmtpLine: string, feedback: seq<Feedback>)

  datatype CodecParams = CodecParams(capability: Capability, payloadType: nat)

  datatype CodecSpec = CodecSpec(mime: string, fmtpLine: string)

  type EnabledCodecs = map<Kind, CodecSpec>

  /** Everything a registration depends on. */
  datatype Config = Config(enabled: EnabledCodecs, audioFeedback: seq<Feedback>, videoFeedback: seq<Feedback>)

  // ---- Case folding ----

  /** Simple case folding restricted to the characters that fold to an ASCII character: the upper-case
      letters, the Kelvin sign and the long s. Exact whenever one side is ASCII, as every codec name is. */
  function FoldChar(c: char): char {
    if 'A' <= c <= 'Z' then (c as int + 32) as char
    else if c == '\U{212A}' then 'k'
    else if c == '\U{017F}' then 's'
    else c
  }

  function Fold(s: string): string {
    seq(|s|, i requires 0 <= i < |s| => FoldChar(s[i]))
  }

  predicate EqualFold(a: string, b: string) {
    Fold(a) == Fold(b)
  }

  /** The two characters are the same letter, or the same character. The Kelvin sign counts as a k and the long s
      as an s, as in Unicode's simple folding. */
  predicate SameLetter(a: char, b: char) {
    || a == b
    || ('A' <= a <= 'Z' && b as int == a as int + 32) || ('A' <= b <= 'Z' && a as int == b as int + 32)
    || (a in "kK\U{212A}" && b in "kK\U{212A}") || (a in "sS\U{017F}" && b in "sS\U{017F}")
  }

  predicate SameText(a: string, b: string) {
    |a| == |b| && forall i :: 0 <= i < |a| ==> SameLetter(a[i], b[i])
  }

  lemma FoldedCharsAgree(a: char, b: char)
    ensures FoldChar(a) == FoldChar(b) <==> SameLetter(a, b)
  {
  }

  /** The comparison the configuration is read with holds iff the texts agree character by character up to case. */
  lemma EqualFoldMeaning(a: string, b: string)
    ensures EqualFold(a, b) <==> SameText(a, b)
  {
    if SameText(a, b) {
      forall i | 0 <= i < |a| ensures Fold(a)[i] == Fold(b)[i] {
        FoldedCharsAgree(a[i], b[i]);
      }
      assert Fold(a) == Fold(b);
    }
    if EqualFold(a, b) {
      assert |Fold(a)| == |Fold(b)|;
      forall i | 0 <= i < |a| ensures SameLetter(a[i], b[i]) {
        assert Fold(a)[i] == Fold(b)[i];
        FoldedCharsAgree(a[i], b[i]);
      }
    }
  }

  // ---- Which codecs a configuration enables ----

  predicate Matches(spec: CodecSpec, cap: Capability) {
    EqualFold(spec.mime, cap.mimeType) && (spec.fmtpLine == "" || EqualFold(spec.fmtpLine, cap.fmtpLine))
  }

  /** Some entry of the configuration, under whatever key, names this codec. */
  predicate Wanted(codecs: EnabledCodecs, cap: Capability) {
    exists k :: k in codecs && Matches(codecs[k], cap)
  }

  /** An entry with an empty format line names every codec with its MIME type, one with a format line those that
      share the line as well. */
  predicate Names(spec: CodecSpec, mime: string, fmtpLine: string) {
    SameText(spec.mime, mime) && (spec.fmtpLine == "" || SameText(spec.fmtpLine, fmtpLine))
  }

  predicate NamedBy(enabled: EnabledCodecs, mime: string, fmtpLine: string) {
    exists k :: k in enabled && Names(enabled[k], mime, fmtpLine)
  }

  lemma WantedIffNamed(enabled: EnabledCodecs, cap: Capability)
    ensures Wanted(enabled, cap) <==> NamedBy(enabled, cap.mimeType, cap.fmtpLine)
  {
    forall k | k in enabled ensures Matches(enabled[k], cap) <==> Names(enabled[k], cap.mimeType, cap.fmtpLine) {
      EqualFoldMeaning(enabled[k].mime, cap.mimeType);
      EqualFoldMeaning(enabled[k].fmtpLine, cap.fmtpLine);
    }
  }

  /** The search loop visits the configuration in map order; its answer does not depend on that order. */
  method IsCodecEnabled(codecs: EnabledCodecs, cap: Capability) returns (enabled: bool)
    ensures enabled <==> Wanted(codecs, cap)
    ensures enabled <==> NamedBy(codecs, cap.mimeType, cap.fmtpLine)
  {
    WantedIffNamed(codecs, cap);
    var rest := codecs.Keys;
    while rest != {}
      invariant rest <= codecs.Keys
      invariant forall k :: k in codecs && k !in rest ==> !Matches(codecs[k], cap)
      decreases |rest|
    {
      var k :| k in rest;
      rest := rest - {k};
      var codec := codecs[k];
      if !EqualFold(codec.mime, cap.mimeType) {
        continue;
      }
      if codec.fmtpLine == "" || EqualFold(codec.fmtpLine, cap.fmtpLine) {
        return true;
      }
    }
    return false;
  }

  function Selected(codecs: EnabledCodecs, available: seq<CodecParams>): seq<CodecParams> {
    if available == [] then []
    else
      var n := |available| - 1;
      Selected(codecs, available[..n]) + if Wanted(codecs, available[n].capability) then [available[n]] else []
  }

  function AudioTable(feedback: seq<Feedback>): seq<CodecParams> {
    [CodecParams(Capability("audio/opus", 48000, 1, "minptime=10;useinbandfec=1", feedback), 111)]
  }

  // The available video codecs, by position.

  function VideoMime(i: nat): string {
    match i case 0 => "video/VP8" case 1 => "video/VP9" case 2 => "video/VP9" case 6 => "video/AV1"
            case _ => "video/H264"
  }

  function VideoFmtpLine(i: nat): string {
    match i
    case 1 => "profile-id=0"
    case 2 => "profile-id=1"
    case 3 => "level-asymmetry-allowed=1;packetization-mode=1;profile-level-id=42e01f"
    case 4 => "level-asymmetry-allowed=1;packetization-mode=0;profile-level-id=42e01f"
    case 5 => "level-asymmetry-allowed=1;packetization-mode=1;profile-level-id=640032"
    case _ => ""
  }

  function VideoPayloadType(i: nat): nat {
    match i case 0 => 96 case 1 => 98 case 2 => 100 case 3 => 125 case 4 => 108 case 5 => 123 case _ => 35
  }

  function VideoCodec(i: nat, feedback: seq<Feedback>): CodecParams
    requires i < 7
  {
    CodecParams(Capability(VideoMime(i), 90000, 0, VideoFmtpLine(i), feedback), VideoPayloadType(i))
  }

  function VideoTable(feedback: seq<Feedback>): seq<CodecParams> {
    seq(7, i requires 0 <= i < 7 => VideoCodec(i, feedback))
  }

  function AudioFor(c: Config): seq<CodecParams> { Selected(c.enabled, AudioTable(c.audioFeedback)) }

  function VideoFor(c: Config): seq<CodecParams> { Selected(c.enabled, VideoTable(c.videoFeedback)) }

  function PayloadTypes(cs: seq<CodecParams>): seq<nat> {
    seq(|cs|, i requires 0 <= i < |cs| => cs[i].payloadType)
  }

  /** What selection keeps: exactly the wanted entries, in table order, each once. `at` lists their
      positions in the table. */
  lemma {:induction false} SelectedMeaning(codecs: EnabledCodecs, available: seq<CodecParams>)
    returns (at: seq<nat>)
    ensures |at| == |Selected(codecs, available)|
    ensures forall i :: 0 <= i < |at| ==> at[i] < |available| && Selected(codecs, available)[i] == available[at[i]]
    ensures forall i, j :: 0 <= i < j < |at| ==> at[i] < at[j]
    ensures forall k :: 0 <= k < |available| ==> (k in at <==> Wanted(codecs, available[k].capability))
  {
    if available == [] {
      at := [];
    } else {
      var n := |available| - 1;
      at := SelectedMeaning(codecs, available[..n]);
      if Wanted(codecs, available[n].capability) {
        at := at + [n];
      }
    }
  }

  /** Selection keeps payload types apart and adds none. */
  lemma SelectedPayloads(codecs: EnabledCodecs, available: seq<CodecParams>)
    requires Distinct(PayloadTypes(available))
    ensures Distinct(PayloadTypes(Selected(codecs, available)))
    ensures forall p :: p in PayloadTypes(Selected(codecs, available)) ==> p in PayloadTypes(available)
  {
    var at := SelectedMeaning(codecs, available);
    var all, some := PayloadTypes(available), PayloadTypes(Selected(codecs, available));
    assert forall i :: 0 <= i < |some| ==> some[i] == all[at[i]];
  }

  lemma VideoPayloads(feedback: seq<Feedback>)
    ensures PayloadTypes(VideoTable(feedback)) == [96, 98, 100, 125, 108, 123, 35]
  {
  }

  /** No two codecs of any configuration share a payload type, across both kinds. */
  lemma PayloadTypesDistinct(c: Config)
    ensures Distinct(PayloadTypes(AudioFor(c) + VideoFor(c)))
  {
    var audio, video := AudioTable(c.audioFeedback), VideoTable(c.videoFeedback);
    VideoPayloads(c.videoFeedback);
    assert PayloadTypes(audio) == [111];
    SelectedPayloads(c.enabled, audio);
    SelectedPayloads(c.enabled, video);
    JoinDistinct(AudioFor(c), VideoFor(c));
  }

  lemma JoinDistinct(a: seq<CodecParams>, b: seq<CodecParams>)
    requires Distinct(PayloadTypes(a)) && Distinct(PayloadTypes(b))
    requires forall p :: p in PayloadTypes(a) ==> p !in PayloadTypes(b)
    ensures Distinct(PayloadTypes(a + b))
  {
    var p, q, both := PayloadTypes(a), PayloadTypes(b), PayloadTypes(a + b);
    assert both == p + q;
    forall i, j | 0 <= i < j < |both| ensures both[i] != both[j] {
      if i < |p| <= j {
        assert both[i] == p[i] && both[j] == q[j - |p|];
        assert p[i] in p && q[j - |p|] in q;
      }
    }
  }

  // ---- The cache as a value ----

  datatype Table = Table(audio: seq<CodecParams>, video: seq<CodecParams>)

  /** One kind's cache entry after a registration reached it. */
  function Fill(cached: seq<CodecParams>, wanted: seq<CodecParams>): seq<CodecParams> {
    if |cached| == 0 then wanted else cached
  }

  /** The codecs an engine takes before the first one it refuses. */
  function Accepted(refused: set<nat>, cs: seq<CodecParams>): seq<CodecParams> {
    if cs == [] || cs[0].payloadType in refused then [] else [cs[0]] + Accepted(refused, cs[1..])
  }

  predicate AllAccepted(refused: set<nat>, cs: seq<CodecParams>) {
    forall i :: 0 <= i < |cs| ==> cs[i].payloadType !in refused
  }

  /** The table after one registration; the video part is reached only when no audio codec was refused. */
  function Register(t: Table, c: Config, refused: set<nat>): Table {
    var audio := Fill(t.audio, AudioFor(c));
    if AllAccepted(refused, audio) then Table(audio, Fill(t.video, VideoFor(c))) else t.(audio := audio)
  }

  function Registrations(t: Table, c: Config, engines: seq<set<nat>>): Table {
    if engines == [] then t
    else Register(Registrations(t, c, engines[..|engines| - 1]), c, engines[|engines| - 1])
  }

  /** After any number of registrations under one configuration the cached list is the direct computation:
      the audio part as soon as one was made, the video part as soon as one got past the audio codecs. */
  lemma {:induction false} CacheAgrees(c: Config, engines: seq<set<nat>>)
    ensures var t := Registrations(Table([], []), c, engines);
      && t.audio == (if engines == [] then [] else AudioFor(c))
      && t.video == (if exists i :: 0 <= i < |engines| && AllAccepted(engines[i], AudioFor(c)) then VideoFor(c) else [])
  {
    if engines != [] {
      var n := |engines| - 1;
      var before := engines[..n];
      CacheAgrees(c, before);
      if i :| 0 <= i < |before| && AllAccepted(before[i], AudioFor(c)) {
        assert engines[i] == before[i];
      }
      if i :| 0 <= i < |engines| && AllAccepted(engines[i], AudioFor(c)) {
        assert i == n || (i < n && before[i] == engines[i]);
      }
    }
  }

  lemma {:induction false} AcceptedAll(refused: set<nat>, cs: seq<CodecParams>)
    ensures Accepted(refused, cs) <= cs
    ensures AllAccepted(refused, cs) <==> Accepted(refused, cs) == cs
  {
    if cs != [] {
      AcceptedAll(refused, cs[1..]);
      if cs[0].payloadType !in refused {
        assert cs == [cs[0]] + cs[1..];
        if AllAccepted(refused, cs[1..]) {
          forall i | 0 <= i < |cs| ensures cs[i].payloadType !in refused {
            if i > 0 { assert cs[1..][i - 1] == cs[i]; }
          }
        }
      }
    }
  }

  // ---- The cache and the engines as objects ----

  class MediaEngine {
    const refused: set<nat>  // payload types the engine reports an error for
    var registered: seq<CodecParams>

    constructor (refused: set<nat>)
      ensures this.refused == refused && registered == []
    {
      this.refused := refused;
      registered := [];
    }

    method RegisterCodec(params: CodecParams) returns (ok: bool)
      modifies this
      ensures ok <==> params.payloadType !in refused
      ensures registered == old(registered) + (if ok then [params] else [])
    {
      ok := params.payloadType !in refused;
      if ok {
        registered := registered + [params];
      }
    }
  }

  class CodecTable {
    var audio: seq<CodecParams>
    var video: seq<CodecParams>

    ghost function Abs(): Table reads this { Table(audio, video) }

    function Of(k: Kind): seq<CodecParams> reads this {
      match k case Audio => audio case Video => video case UnknownKind => []
    }

    constructor ()
      ensures Abs() == Table([], [])
    {
      audio, video := [], [];
    }

    method RegisterAudioCodecs(me: MediaEngine, c: Config) returns (ok: bool)
      modifies this`audio, me
      ensures audio == Fill(old(audio), AudioFor(c))
      ensures old(audio) != [] ==> audio == old(audio)
      ensures ok <==> AllAccepted(me.refused, audio)
      ensures me.registered == old(me.registered) + Accepted(me.refused, audio)
    {
      if |audio| == 0 {
        var opus := CodecParams(
          Capability("audio/opus", 48000, 1, "minptime=10;useinbandfec=1", c.audioFeedback), 111);
        assert AudioTable(c.audioFeedback) == [opus] && [opus][..0] == [];
        assert Selected(c.enabled, [opus]) == if Wanted(c.enabled, opus.capability) then [opus] else [];
        var enabled := IsCodecEnabled(c.enabled, opus.capability);
        if enabled {
          audio := audio + [opus];
        }
      }
      ok := RegisterAll(me, audio);
    }

    method RegisterVideoCodecs(me: MediaEngine, c: Config) returns (ok: bool)
      modifies this`video, me
      ensures video == Fill(old(video), VideoFor(c))
      ensures old(video) != [] ==> video == old(video)
      ensures ok <==> AllAccepted(me.refused, video)
      ensures me.registered == old(me.registered) + Accepted(me.refused, video)
    {
      if |video| == 0 {
        AppendEnabledVideo(c.enabled, VideoTable(c.videoFeedback));
      }
      ok := RegisterAll(me, video);
    }

    method AppendEnabledVideo(enabled: EnabledCodecs, available: seq<CodecParams>)
      modifies this`video
      ensures video == old(video) + Selected(enabled, available)
    {
      for i := 0 to |available|
        invariant video == old(video) + Selected(enabled, available[..i])
      {
        assert available[..i + 1][..i] == available[..i];
        var wanted := IsCodecEnabled(enabled, available[i].capability);
        if wanted {
          video := video + [available[i]];
        }
      }
      assert available[..|available|] == available;
    }

    static method RegisterAll(me: MediaEngine, cs: seq<CodecParams>) returns (ok: bool)
      modifies me
      ensures ok <==> AllAccepted(me.refused, cs)
      ensures me.registered == old(me.registered) + Accepted(me.refused, cs)
    {
      for i := 0 to |cs|
        invariant AllAccepted(me.refused, cs[..i])
        invariant me.registered + Accepted(me.refused, cs[i..]) == old(me.registered) + Accepted(me.refused, cs)
      {
        var accepted := me.RegisterCodec(cs[i]);
        assert cs[i..][1..] == cs[i + 1..];
        assert forall j :: 0 <= j < i ==> cs[..i][j] == cs[j];
        if !accepted {
          return false;
        }
      }
      assert cs[..|cs|] == cs;
      return true;
    }

    /** One registration. A successful one hands the engine the audio codecs followed by the video codecs. */
    method RegisterCodecs(me: MediaEngine, c: Config) returns (ok: bool)
      modifies this, me
      ensures Abs() == Register(old(Abs()), c, me.refused)
      ensures ok <==> AllAccepted(me.refused, audio) && AllAccepted(me.refused, Fill(old(video), VideoFor(c)))
      ensures ok ==> me.registered == old(me.registered) + audio + video
    {
      ok := RegisterAudioCodecs(me, c);
      AcceptedAll(me.refused, audio);
      if !ok {
        return;
      }
      ok := RegisterVideoCodecs(me, c);
      AcceptedAll(me.refused, video);
    }
  }
}
