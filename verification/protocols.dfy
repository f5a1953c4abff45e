/**
 * The protocol catalogue and the pure classification predicates of
 * protocols.py: which ports to try, which payloads and content types look
 * like media, and how a URL is classified by the first pattern it matches.
 */
module Protocols {
  import opened Common
  import opened Text
  import opened Seqs

  /** Protocol name and candidate ports, in declaration order (1935, 8443 and 4443 occur twice). */
  const COMMON_STREAMING_PORTS: seq<(string, seq<int>)> := [
    ("rtsp", [554, 8554]),
    ("http", [80, 8080, 8000, 8800, 8888, 3000, 5000]),
    ("https", [443, 8443, 4443]),
    ("hls", [8081, 1935, 8082, 8083]),
    ("rtmp", [1935, 1936, 1937]),
    ("ws", [8084, 8085, 8086]),
    ("wss", [8443, 4443])
  ]

  /** Keys of the URL pattern table, in the order the table is searched. */
  const STREAMING_PATTERN_KEYS: seq<string> := [
    "rtsp", "hls", "dash", "rtmp", "http_stream", "adaptive_stream", "ws_stream", "mobile_stream"
  ]

  /** The answer of `classify_url` when no pattern matches. */
  const UNKNOWN: string := "unknown"

  /** Content-type fragments that mark a media response (duplicates and case as in the table). */
  const VIDEO_CONTENT_TYPES: seq<string> := [
    "video/",
    "application/x-mpegurl",
    "application/vnd.apple.mpegurl",
    "application/dash+xml",
    "application/x-rtsp",
    "application/x-rtmp",
    "application/octet-stream",
    "binary/octet-stream",
    "application/x-flv",
    "video/mp4",
    "video/webm",
    "video/x-matroska",
    "video/quicktime",
    "application/x-mpegURL",
    "application/x-fcs",
    "application/x-shockwave-flash",
    "application/vnd.apple.mpegurl",
    "application/x-google-vlc-plugin",
    "application/x-silverlight-app"
  ]

  /** The HLS playlist header tag (section 4.3.1.1 of RFC 8216). */
  const EXTM3U: seq<byte> := Bytes("#EXTM3U")
  /** The XML declaration that opens a DASH manifest (ISO/IEC 23009-1). */
  const XML_DECL: seq<byte> := Bytes("<?xml")
  /** The RTSP version token that starts a status line (section 7.1 of RFC 2326). */
  const RTSP_10: seq<byte> := Bytes("RTSP/1.0")
  const RTSP_11: seq<byte> := Bytes("RTSP/1.1")
  const POLICY_FILE_REQUEST: seq<byte> := Bytes("<policy-file-request/>")
  const EXT: seq<byte> := Bytes("#EXT")
  /**
   * 0x81: FIN bit set with opcode 0x1, the first byte of a final TEXT frame
   * (section 5.2 of RFC 6455), although the table's comment calls it binary.
   */
  const WS_FRAME_START: seq<byte> := [0x81]

  const EXT_X_VERSION: seq<byte> := Bytes("#EXT-X-VERSION")
  const EXT_X_STREAM_INF: seq<byte> := Bytes("#EXT-X-STREAM-INF")
  const MPD: seq<byte> := Bytes("MPD")
  const MANIFEST: seq<byte> := Bytes("manifest")
  const BANDWIDTH: seq<byte> := Bytes("BANDWIDTH")
  const RESOLUTION: seq<byte> := Bytes("RESOLUTION")
  const CODECS: seq<byte> := Bytes("CODECS")

  /** Container signatures: ISO BMFF box types (ISO/IEC 14496-12), WebM/Matroska, FLV. */
  const BINARY_SIGNATURES: seq<seq<byte>> := [
    Bytes("ftyp"), Bytes("moov"), Bytes("mdat"), Bytes("webm"), Bytes("matroska"), Bytes("FLV")
  ]

  /** Signatures must lie wholly within this many leading bytes. */
  const BINARY_WINDOW: nat := 1024

  /** `PROTOCOL_HEADERS.get(protocol)`. */
  function HeaderFor(protocol: string): (r: Option<seq<byte>>)
    ensures r.Some? ==> |r.value| > 0
  {
    if protocol == "hls" then Some(EXTM3U)
    else if protocol == "dash" then Some(XML_DECL)
    else if protocol == "rtsp" then Some(RTSP_10)
    else if protocol == "rtmp" then Some(POLICY_FILE_REQUEST)
    else if protocol == "adaptive" then Some(EXT)
    else if protocol == "ws" then Some(WS_FRAME_START)
    else if protocol == "mobile" then Some(EXTM3U)
    else None
  }

  /** `expected_header and expected_header in data[:len(expected_header)]`. */
  predicate HeaderMatches(data: seq<byte>, protocol: string) {
    match HeaderFor(protocol)
    case None => false
    case Some(h) => h != [] && Contains(Take(data, |h|), h)
  }

  /** Some container signature occurs in `data[:1024]`. */
  predicate HasBinarySignature(data: seq<byte>) {
    exists k | 0 <= k < |BINARY_SIGNATURES| :: Contains(Take(data, BINARY_WINDOW), BINARY_SIGNATURES[k])
  }

  /** `validate_protocol_response(data, protocol)`. */
  function ValidateProtocolResponse(data: seq<byte>, protocol: string): (r: bool)
    ensures r ==> |data| > 0
  {
    if |data| == 0 then false
    else if HeaderMatches(data, protocol) then true
    else if protocol == "rtsp" then Contains(data, RTSP_10) || Contains(data, RTSP_11)
    else if protocol == "hls" then
      Contains(data, EXTM3U) || Contains(data, EXT_X_VERSION) || Contains(data, EXT_X_STREAM_INF)
    else if protocol == "dash" then
      Contains(data, XML_DECL) && (Contains(data, MPD) || Contains(LowerBytes(data), MANIFEST))
    else if protocol == "rtmp" then true
    else if protocol == "ws" then |data| > 0
    else if protocol == "adaptive" then
      Contains(data, EXT) || Contains(data, BANDWIDTH) || Contains(data, RESOLUTION) || Contains(data, CODECS)
    else HasBinarySignature(data)
  }

  /** Data that begins with the protocol's header is accepted. */
  lemma HeaderPrefixAccepted(data: seq<byte>, protocol: string)
    requires HeaderFor(protocol).Some? && IsPrefix(HeaderFor(protocol).value, data)
    ensures ValidateProtocolResponse(data, protocol)
  {
    WindowOfOwnLengthIsPrefix(data, HeaderFor(protocol).value);
  }

  /** RTMP and WebSocket responses are judged by the connection alone: any non-empty data passes. */
  lemma ConnectionJudgedProtocols(data: seq<byte>, protocol: string)
    requires protocol == "rtmp" || protocol == "ws"
    ensures ValidateProtocolResponse(data, protocol) <==> |data| > 0
  {
  }

  /**
   * A DASH response passes iff it starts with the XML declaration, or holds one
   * together with `MPD` or (in any ASCII case) `manifest`.
   */
  lemma DashAcceptance(data: seq<byte>)
    ensures ValidateProtocolResponse(data, "dash") <==>
      IsPrefix(XML_DECL, data) ||
      (Contains(data, XML_DECL) && (Contains(data, MPD) || Contains(LowerBytes(data), MANIFEST)))
  {
    WindowOfOwnLengthIsPrefix(data, XML_DECL);
  }

  /**
   * A tag with neither a header nor a branch of its own (such as `'video'`)
   * passes iff some container signature lies wholly within the first 1024 bytes.
   */
  lemma UnlistedTagUsesSignatureWindow(data: seq<byte>, tag: string)
    requires HeaderFor(tag).None?
    requires tag != "rtsp" && tag != "hls" && tag != "dash" && tag != "rtmp" && tag != "ws" && tag != "adaptive"
    ensures ValidateProtocolResponse(data, tag) <==>
      exists k, i :: 0 <= k < |BINARY_SIGNATURES| && OccursAt(data, BINARY_SIGNATURES[k], i) &&
                     i + |BINARY_SIGNATURES[k]| <= BINARY_WINDOW
  {
    forall k | 0 <= k < |BINARY_SIGNATURES| {
      WindowContains(data, BINARY_SIGNATURES[k], BINARY_WINDOW);
    }
    if |data| == 0 {
      forall k, i | 0 <= k < |BINARY_SIGNATURES|
        ensures !OccursAt(data, BINARY_SIGNATURES[k], i)
      {
        assert |BINARY_SIGNATURES[k]| > 0;
      }
    }
  }

  /** The stream monitor's check `validate_protocol_response(chunk, 'video')` is the signature test. */
  lemma VideoTagIsSignatureTest(data: seq<byte>)
    ensures ValidateProtocolResponse(data, "video") <==> HasBinarySignature(data)
  {
    if HasBinarySignature(data) {
      var k :| 0 <= k < |BINARY_SIGNATURES| && Contains(Take(data, BINARY_WINDOW), BINARY_SIGNATURES[k]);
      assert |BINARY_SIGNATURES[k]| > 0;
    }
  }

  /**
   * `is_video_content_type`: some table entry occurs in the lower-cased
   * content type; in particular every content type containing `video/`
   * passes.
   */
  predicate IsVideoContentType(contentType: string)
    ensures Contains(contentType, "video/") ==> IsVideoContentType(contentType)
  {
    VideoSlashLowered(contentType);
    exists k | 0 <= k < |VIDEO_CONTENT_TYPES| :: Contains(Lower(contentType), VIDEO_CONTENT_TYPES[k])
  }

  lemma VideoSlashEntry()
    ensures VIDEO_CONTENT_TYPES[0] == "video/"
  {
  }

  lemma VideoSlashIsLowercase()
    ensures Lower("video/") == "video/"
  {
    LowerFixesLowercase("video/");
  }

  lemma VideoSlashLowered(contentType: string)
    ensures Contains(contentType, "video/") ==> Contains(Lower(contentType), VIDEO_CONTENT_TYPES[0])
  {
    VideoSlashEntry();
    if Contains(contentType, "video/") {
      VideoSlashIsLowercase();
      LowerKeepsOccurrence(contentType, "video/");
    }
  }

  /** The content-type test ignores ASCII case. */
  lemma VideoContentTypeIgnoresCase(contentType: string)
    ensures IsVideoContentType(Lower(contentType)) == IsVideoContentType(contentType)
  {
    LowerIdempotent(contentType);
  }

  /** The mixed-case entry `application/x-mpegURL` can never match a lower-cased content type. */
  lemma MixedCaseEntryNeverMatches(contentType: string)
    ensures !Contains(Lower(contentType), VIDEO_CONTENT_TYPES[13])
  {
    MixedCaseEntry();
    UpperNeverInLower(contentType, VIDEO_CONTENT_TYPES[13], 18);
  }

  lemma MixedCaseEntry()
    ensures |VIDEO_CONTENT_TYPES[13]| > 18 && VIDEO_CONTENT_TYPES[13][18] == 'U'
  {
  }

  /**
   * `classify_url`: the first key, in table order, whose pattern matches.
   * `matches(key, url)` stands for `STREAMING_PATTERNS[key].match(url)`.
   */
  function FirstMatch(url: string, matches: (string, string) -> bool, keys: seq<string>): (r: string)
    ensures r == UNKNOWN || (r in keys && matches(r, url))
  {
    if keys == [] then UNKNOWN
    else if matches(keys[0], url) then keys[0]
    else FirstMatch(url, matches, keys[1..])
  }

  function ClassifyUrl(url: string, matches: (string, string) -> bool): (r: string)
    ensures r == UNKNOWN || (r in STREAMING_PATTERN_KEYS && matches(r, url))
  {
    FirstMatch(url, matches, STREAMING_PATTERN_KEYS)
  }

  /** `is_streaming_url`: some pattern of the table matches. */
  predicate AnyMatch(url: string, matches: (string, string) -> bool, keys: seq<string>) {
    if keys == [] then false else matches(keys[0], url) || AnyMatch(url, matches, keys[1..])
  }

  /** `is_streaming_url(u)` holds iff `classify_url(u) != 'unknown'`. */
  predicate IsStreamingUrl(url: string, matches: (string, string) -> bool)
    ensures IsStreamingUrl(url, matches) <==> ClassifyUrl(url, matches) != UNKNOWN
  {
    FirstMatchIsFirst(url, matches, STREAMING_PATTERN_KEYS);
    AnyMatch(url, matches, STREAMING_PATTERN_KEYS)
  }

  lemma {:induction false} FirstMatchIsFirst(url: string, matches: (string, string) -> bool, keys: seq<string>)
    requires UNKNOWN !in keys
    ensures FirstMatch(url, matches, keys) == UNKNOWN <==> forall i | 0 <= i < |keys| :: !matches(keys[i], url)
    ensures FirstMatch(url, matches, keys) != UNKNOWN ==>
      exists i :: 0 <= i < |keys| && keys[i] == FirstMatch(url, matches, keys) && matches(keys[i], url) &&
                  forall j | 0 <= j < i :: !matches(keys[j], url)
    ensures AnyMatch(url, matches, keys) <==> exists i :: 0 <= i < |keys| && matches(keys[i], url)
  {
    if keys != [] {
      FirstMatchIsFirst(url, matches, keys[1..]);
      if !matches(keys[0], url) {
        if FirstMatch(url, matches, keys[1..]) != UNKNOWN {
          var i :| 0 <= i < |keys| - 1 && keys[1..][i] == FirstMatch(url, matches, keys[1..]) &&
                   matches(keys[1..][i], url) && forall j | 0 <= j < i :: !matches(keys[1..][j], url);
          assert keys[i + 1] == keys[1..][i];
          assert forall j | 0 <= j < i + 1 :: !matches(keys[j], url) by {
            forall j | 0 <= j < i + 1
              ensures !matches(keys[j], url)
            {
              if j > 0 { assert keys[j] == keys[1..][j - 1]; }
            }
          }
        }
        assert (forall i | 0 <= i < |keys| :: !matches(keys[i], url)) <==>
               (forall i | 0 <= i < |keys| - 1 :: !matches(keys[1..][i], url)) by {
          forall i | 0 <= i < |keys| - 1
            ensures keys[1..][i] == keys[i + 1]
          {
          }
        }
        if exists i :: 0 <= i < |keys| && matches(keys[i], url) {
          var i :| 0 <= i < |keys| && matches(keys[i], url);
          assert keys[1..][i - 1] == keys[i];
        }
      }
    }
  }

  /**
   * `classify_url(u)` is the first matching key in table order, or
   * `'unknown'` exactly when no pattern matches.
   */
  lemma ClassifyUrlFirstMatch(url: string, matches: (string, string) -> bool)
    ensures ClassifyUrl(url, matches) == UNKNOWN <==>
      forall i | 0 <= i < |STREAMING_PATTERN_KEYS| :: !matches(STREAMING_PATTERN_KEYS[i], url)
    ensures ClassifyUrl(url, matches) != UNKNOWN ==>
      exists i :: 0 <= i < |STREAMING_PATTERN_KEYS| && STREAMING_PATTERN_KEYS[i] == ClassifyUrl(url, matches) &&
                  matches(STREAMING_PATTERN_KEYS[i], url) &&
                  forall j | 0 <= j < i :: !matches(STREAMING_PATTERN_KEYS[j], url)
  {
    FirstMatchIsFirst(url, matches, STREAMING_PATTERN_KEYS);
  }

  /** The port lists of the table, in order. */
  function PortLists(): seq<seq<int>> {
    seq(|COMMON_STREAMING_PORTS|, i requires 0 <= i < |COMMON_STREAMING_PORTS| => COMMON_STREAMING_PORTS[i].1)
  }

  /**
   * `get_protocol_ports()`: every port of the table once. The source builds it
   * through a `set`, whose order is unspecified; this model keeps first occurrences.
   */
  function ProtocolPorts(): (r: seq<int>)
    ensures NoDups(r)
    ensures forall p :: p in r <==> exists k :: 0 <= k < |COMMON_STREAMING_PORTS| && p in COMMON_STREAMING_PORTS[k].1
  {
    DedupeFlattenMembers(PortLists());
    assert forall k | 0 <= k < |COMMON_STREAMING_PORTS| :: PortLists()[k] == COMMON_STREAMING_PORTS[k].1;
    Dedupe(Flatten(PortLists()))
  }
}
