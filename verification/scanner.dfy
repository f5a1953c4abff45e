/**
 * scanner.py: the per-protocol probers of `StreamScanner` and the way
 * `scan_host` and `scan_network` fold their results into the scanner's
 * result set and counters.
 *
 * Every network exchange is an oracle of `Network`: the outcome of one
 * port check, one RTSP `OPTIONS` exchange, one GET or one HEAD. Probers
 * run concurrently in the source; none of them touches the scanner's
 * state, so running them one after another gives the same state.
 */
module Scanner {
  import opened Common
  import opened Text
  import opened Seqs
  import Protocols
  import Utils

  /** `self.retry_count`: attempts per candidate URL. */
  const RETRY_COUNT: nat := 3

  /** One RTSP attempt: open, send `OPTIONS`, read up to 1024 bytes with a timeout. */
  datatype RtspReply =
    | Answer(data: seq<byte>)  // the bytes read
    | ReadTimeout              // asyncio.TimeoutError while reading, handled inside the attempt
    | ConnectFailed            // ConnectionRefusedError or another OSError
    | OtherRtspError           // any other exception, which check_rtsp does not catch

  /** One GET attempt through the aiohttp session. */
  datatype GetReply =
    | Page(status: int, text: Option<string>)  // `text` is None when the body does not decode
    | ClientFailure                            // aiohttp.ClientError or asyncio.TimeoutError
    | OtherGetError                            // any other exception

  /**
   * The network as seen by one scan. `rtsp` is keyed by the request text
   * and `get` by the URL, each with the attempt number, so a retry may see
   * a different outcome. `portCheck` is keyed by the protocol row as well:
   * ports 1935, 8443 and 4443 are listed under two protocols each, and the
   * two connects are separate calls that may answer differently.
   */
  datatype Network = Network(
    portCheck: (string, string, int) -> Utils.PortOutcome,  // check_port(ip, port, timeout=2.0) in scan_host, per protocol row
    rtmpPortCheck: (string, int) -> Utils.PortOutcome,      // check_port(ip, port, timeout=5.0) in check_rtmp
    rtsp: (string, nat) -> RtspReply,
    get: (string, nat) -> GetReply)

  // ---------------------------------------------------------------------
  // Retries

  /** What one attempt decided: the marker was seen, try again, or an exception escapes. */
  datatype Attempt = Hit | Miss | Abort

  /** The attempts from number `k` on: the first hit or escaping exception ends them. */
  function Retry(attempt: nat -> Attempt, k: nat): Outcome<bool>
    decreases RETRY_COUNT - k
  {
    if k >= RETRY_COUNT then Returned(false)
    else
      match attempt(k)
      case Hit => Returned(true)
      case Abort => Raised
      case Miss => Retry(attempt, k + 1)
  }

  /** `for attempt in range(self.retry_count)`, leaving by `break` on a hit. */
  method RetryLoop(attempt: nat -> Attempt) returns (r: Outcome<bool>)
    ensures r == Retry(attempt, 0)
  {
    var k := 0;
    while k < RETRY_COUNT
      invariant 0 <= k <= RETRY_COUNT
      invariant Retry(attempt, 0) == Retry(attempt, k)
    {
      var a := attempt(k);
      if a == Hit {
        return Returned(true);
      } else if a == Abort {
        return Raised;
      }
      k := k + 1;
    }
    return Returned(false);
  }

  lemma {:induction false} RetryFrom(attempt: nat -> Attempt, k: nat)
    ensures Retry(attempt, k) == Returned(true) <==>
            exists j | k <= j < RETRY_COUNT :: attempt(j) == Hit && forall i | k <= i < j :: attempt(i) == Miss
    ensures Retry(attempt, k) == Returned(false) <==> forall i | k <= i < RETRY_COUNT :: attempt(i) == Miss
    decreases RETRY_COUNT - k
  {
    if k < RETRY_COUNT {
      RetryFrom(attempt, k + 1);
      if attempt(k) == Miss {
        if exists j | k <= j < RETRY_COUNT :: attempt(j) == Hit && forall i | k <= i < j :: attempt(i) == Miss {
          var j :| k <= j < RETRY_COUNT && attempt(j) == Hit && forall i | k <= i < j :: attempt(i) == Miss;
          assert k + 1 <= j;
        }
      }
    }
  }

  /**
   * A candidate is confirmed iff some attempt among the first `RETRY_COUNT`
   * hits after misses only; it is rejected iff every attempt misses; in the
   * remaining case an exception escapes.
   */
  lemma RetryOutcome(attempt: nat -> Attempt)
    ensures Retry(attempt, 0) == Returned(true) <==>
            exists j | 0 <= j < RETRY_COUNT :: attempt(j) == Hit && forall i | 0 <= i < j :: attempt(i) == Miss
    ensures Retry(attempt, 0) == Returned(false) <==> forall i | 0 <= i < RETRY_COUNT :: attempt(i) == Miss
  {
    RetryFrom(attempt, 0);
  }

  // ---------------------------------------------------------------------
  // Collecting the confirmed candidates of one prober

  /**
   * The candidates whose verdict is True, in order; an exception from any
   * verdict escapes the prober.
   */
  function Collect<T>(cands: seq<T>, verdict: T -> Outcome<bool>): Outcome<seq<T>>
    decreases |cands|
  {
    if cands == [] then Returned([])
    else
      match Collect(DropLast(cands), verdict)
      case Raised => Raised
      case Returned(kept) =>
        match verdict(Last(cands))
        case Raised => Raised
        case Returned(ok) => Returned(if ok then kept + [Last(cands)] else kept)
  }

  lemma {:induction false} CollectRaisedExtends<T>(a: seq<T>, b: seq<T>, verdict: T -> Outcome<bool>)
    requires Collect(a, verdict) == Raised
    ensures Collect(a + b, verdict) == Raised
    decreases |b|
  {
    if b == [] {
      assert a + b == a;
    } else {
      assert DropLast(a + b) == a + DropLast(b);
      CollectRaisedExtends(a, DropLast(b), verdict);
    }
  }

  /** A prober raises iff the verdict on one of its candidates raises. */
  /** Unfolding `Collect` once: it raises on a non-empty list exactly when the prefix raises or the last verdict does. */
  lemma CollectRaisedLast<T>(cands: seq<T>, verdict: T -> Outcome<bool>)
    requires cands != []
    ensures Collect(cands, verdict) == Raised <==>
              Collect(DropLast(cands), verdict) == Raised || verdict(Last(cands)) == Raised
  {
  }

  /** Some element of a non-empty list raises exactly when one of its prefix or its last element does. */
  lemma RaisingLast<T>(cands: seq<T>, verdict: T -> Outcome<bool>)
    requires cands != []
    ensures (exists i | 0 <= i < |cands| :: verdict(cands[i]) == Raised) <==>
              (exists i | 0 <= i < |cands| - 1 :: verdict(DropLast(cands)[i]) == Raised) || verdict(Last(cands)) == Raised
  {
    var init, n := DropLast(cands), |cands| - 1;
    assert cands[n] == Last(cands);
    if exists i | 0 <= i < n :: verdict(init[i]) == Raised {
      var i :| 0 <= i < n && verdict(init[i]) == Raised;
      assert cands[i] == init[i];
    }
    if exists i | 0 <= i < |cands| :: verdict(cands[i]) == Raised {
      var i :| 0 <= i < |cands| && verdict(cands[i]) == Raised;
      if i < n {
        assert init[i] == cands[i];
      } else {
        assert i == n;
      }
    }
  }

  lemma {:induction false} CollectRaised<T>(cands: seq<T>, verdict: T -> Outcome<bool>)
    ensures Collect(cands, verdict) == Raised <==> exists i | 0 <= i < |cands| :: verdict(cands[i]) == Raised
    decreases |cands|
  {
    if cands != [] {
      CollectRaised(DropLast(cands), verdict);
      CollectRaisedLast(cands, verdict);
      RaisingLast(cands, verdict);
    }
  }

  /**
   * When a prober returns, its result lists exactly the candidates whose
   * verdict is True, in candidate order.
   */
  /** When every verdict is a quiet False, nothing is kept. */
  lemma {:induction false} CollectNoneKept<T>(cands: seq<T>, verdict: T -> Outcome<bool>)
    requires forall i | 0 <= i < |cands| :: verdict(cands[i]) == Returned(false)
    ensures Collect(cands, verdict) == Returned([])
    decreases |cands|
  {
    if cands != [] {
      var init := DropLast(cands);
      assert forall i | 0 <= i < |init| :: init[i] == cands[i];
      CollectNoneKept(init, verdict);
      assert verdict(Last(cands)) == Returned(false);
    }
  }

  lemma {:induction false} CollectReturned<T>(cands: seq<T>, verdict: T -> Outcome<bool>, kept: seq<T>)
    requires Collect(cands, verdict) == Returned(kept)
    ensures IsSubsequence(kept, cands)
    ensures forall i | 0 <= i < |kept| :: kept[i] in cands && verdict(kept[i]) == Returned(true)
    ensures forall i | 0 <= i < |cands| && verdict(cands[i]) == Returned(true) :: cands[i] in kept
    decreases |cands|
  {
    if cands != [] {
      var init := DropLast(cands);
      var x := Last(cands);
      assert cands == init + [x];
      var prev := Collect(init, verdict).value;
      CollectReturned(init, verdict, prev);
      if verdict(x) == Returned(true) {
        assert kept == prev + [x];
        SubsequenceBoth(prev, init, x);
      } else {
        assert kept == prev;
        SubsequenceExtend(prev, init, x);
      }
      forall i | 0 <= i < |cands| && verdict(cands[i]) == Returned(true)
        ensures cands[i] in kept
      {
        if i < |init| {
          assert cands[i] == init[i];
        }
      }
    }
  }

  /** A prober over duplicate-free candidates reports each URL at most once. */
  lemma CollectNoDups<T>(cands: seq<T>, verdict: T -> Outcome<bool>, kept: seq<T>)
    requires Collect(cands, verdict) == Returned(kept) && NoDups(cands)
    ensures NoDups(kept)
  {
    CollectReturned(cands, verdict, kept);
    SubsequenceNoDups(kept, cands);
  }

  /** One more candidate: the recursion of `Collect` on a prefix of `cands`. */
  lemma CollectStep<T>(cands: seq<T>, n: int, verdict: T -> Outcome<bool>)
    requires 0 <= n < |cands|
    ensures Collect(cands[..n + 1], verdict) ==
      match Collect(cands[..n], verdict)
      case Raised => Raised
      case Returned(kept) =>
        match verdict(cands[n])
        case Raised => Raised
        case Returned(ok) => Returned(if ok then kept + [cands[n]] else kept)
  {
    assert DropLast(cands[..n + 1]) == cands[..n];
    assert Last(cands[..n + 1]) == cands[n];
  }

  /** An exception on a prefix of the candidates escapes the whole prober. */
  lemma CollectPrefixRaised<T>(cands: seq<T>, n: int, verdict: T -> Outcome<bool>)
    requires 0 <= n <= |cands| && Collect(cands[..n], verdict) == Raised
    ensures Collect(cands, verdict) == Raised
  {
    CollectRaisedExtends(cands[..n], cands[n..], verdict);
    assert cands[..n] + cands[n..] == cands;
  }

  /** Collecting two runs of candidates one after the other: the kept lists concatenate, and an exception in either escapes. */
  lemma {:induction false} CollectConcat<T>(a: seq<T>, b: seq<T>, verdict: T -> Outcome<bool>)
    ensures Collect(a + b, verdict) ==
      if Collect(a, verdict).Raised? || Collect(b, verdict).Raised? then Raised
      else Returned(Collect(a, verdict).value + Collect(b, verdict).value)
    decreases |b|
  {
    if b == [] {
      assert a + b == a;
      if Collect(a, verdict).Returned? {
        assert Collect(a, verdict).value + [] == Collect(a, verdict).value;
      }
    } else {
      var b' := DropLast(b);
      var x := Last(b);
      assert DropLast(a + b) == a + b';
      assert Last(a + b) == x;
      CollectConcat(a, b', verdict);
      if Collect(a, verdict).Returned? && Collect(b', verdict).Returned? && verdict(x).Returned? {
        var ka, kb := Collect(a, verdict).value, Collect(b', verdict).value;
        assert (ka + kb) + [x] == ka + (kb + [x]);
      }
    }
  }

  /** One more run of a flattened list of runs: its kept candidates are appended, or its exception escapes. */
  lemma CollectRunStep<T>(runs: seq<seq<T>>, k: int, verdict: T -> Outcome<bool>, kept: seq<T>)
    requires 0 <= k < |runs| && Collect(Flatten(runs[..k]), verdict) == Returned(kept)
    ensures Collect(runs[k], verdict).Raised? ==> Collect(Flatten(runs), verdict) == Raised
    ensures Collect(runs[k], verdict).Returned? ==>
      Collect(Flatten(runs[..k + 1]), verdict) == Returned(kept + Collect(runs[k], verdict).value)
  {
    FlattenPrefixStep(runs, k);
    CollectConcat(Flatten(runs[..k]), runs[k], verdict);
    if Collect(runs[k], verdict).Raised? {
      FlattenSplit(runs, k + 1);
      CollectRaisedExtends(Flatten(runs[..k + 1]), Flatten(runs[k + 1..]), verdict);
    }
  }

  // ---------------------------------------------------------------------
  // check_rtsp

  const RTSP_PATHS: seq<string> := [
    "live", "stream", "cam", "video0", "video1", "h264", "mpeg4",
    "media", "videoMain", "video1+audio1", "primary", "track1",
    "ch01", "ch1", "sub", "main", "av0_0", "av0_1", "streaming"
  ]

  /** Status-line starts that confirm an RTSP stream (section 7.1 of RFC 2326). */
  const RTSP_OK_10: seq<byte> := Bytes("RTSP/1.0 200")
  const RTSP_OK_11: seq<byte> := Bytes("RTSP/1.1 200")

  /** The `OPTIONS` request with its `CSeq` header (sections 10.1 and 12.17 of RFC 2326). */
  function OptionsRequest(url: string): string {
    "OPTIONS " + url + " RTSP/1.0\r\nCSeq: 1\r\n\r\n"
  }

  /** `rtsp://ip:port/path` for each path, in list order. */
  /** `scheme://ip:port/path` for each of `paths`, in order. */
  function PathUrls(scheme: string, ip: string, port: int, paths: seq<string>): (r: seq<string>)
    ensures |r| == |paths|
    ensures forall i | 0 <= i < |paths| :: r[i] == EndpointUrl(scheme, ip, port, "/" + paths[i])
  {
    seq(|paths|, i requires 0 <= i < |paths| => EndpointUrl(scheme, ip, port, "/" + paths[i]))
  }

  function RtspUrls(ip: string, port: int): seq<string> {
    PathUrls("rtsp", ip, port, RTSP_PATHS)
  }

  /** Attempt `k` on `url`: a read holding a 200 status line hits; timeouts, failed connects and other replies miss. */
  function RtspAttempt(net: Network, url: string): nat -> Attempt {
    (k: nat) =>
      match net.rtsp(OptionsRequest(url), k)
      case Answer(data) => if Contains(data, RTSP_OK_10) || Contains(data, RTSP_OK_11) then Hit else Miss
      case ReadTimeout => Miss
      case ConnectFailed => Miss
      case OtherRtspError => Abort
  }

  function RtspVerdict(net: Network): string -> Outcome<bool> {
    url => Retry(RtspAttempt(net, url), 0)
  }

  /** What `check_rtsp(ip, port)` returns, or Raised. */
  function RtspFound(ip: string, port: int, net: Network): Outcome<seq<string>> {
    Collect(RtspUrls(ip, port), RtspVerdict(net))
  }

  /**
   * The fingerprints of `RTSP_PATHS`, in order. These numbers stand for
   * nothing in the scanner: they are a proof aid, letting the solver see
   * that the nineteen paths differ by comparing integers rather than strings.
   */
  const RTSP_FINGERPRINTS: seq<int> := [
    289893, 422765, 222061, 423472, 423473, 288820, 355636, 355681, 620142, 882225,
    487545, 422961, 287537, 222001, 226146, 290158, 352560, 352561, 619367
  ]

  lemma RtspFingerprintsLow()
    ensures forall i | 0 <= i < 10 :: RTSP_FINGERPRINTS[i] == Fingerprint(RTSP_PATHS[i])
  {
  }

  lemma RtspFingerprintsHigh()
    ensures forall i | 10 <= i < |RTSP_PATHS| :: RTSP_FINGERPRINTS[i] == Fingerprint(RTSP_PATHS[i])
  {
  }

  lemma RtspFingerprintsUnique()
    ensures NoDups(RTSP_FINGERPRINTS)
  {
    RtspFingerprintsLowApart();
    RtspFingerprintsHighApart();
    RtspFingerprintsCrossApart(0, 5);
    RtspFingerprintsCrossApart(5, 10);
  }

  lemma RtspFingerprintsLowApart()
    ensures forall i, j | 0 <= i < j < 10 :: RTSP_FINGERPRINTS[i] != RTSP_FINGERPRINTS[j]
  {
  }

  lemma RtspFingerprintsHighApart()
    ensures forall i, j | 10 <= i < j < 19 :: RTSP_FINGERPRINTS[i] != RTSP_FINGERPRINTS[j]
  {
  }

  /** The fingerprints at `[lo, hi)` differ from the last nine. */
  lemma RtspFingerprintsCrossApart(lo: int, hi: int)
    requires (lo == 0 && hi == 5) || (lo == 5 && hi == 10)
    ensures forall i, j | lo <= i < hi && 10 <= j < 19 :: RTSP_FINGERPRINTS[i] != RTSP_FINGERPRINTS[j]
  {
  }

  lemma RtspPathsDistinct()
    ensures NoDups(RTSP_PATHS)
  {
    RtspFingerprintsLow();
    RtspFingerprintsHigh();
    RtspFingerprintsUnique();
    NoDupsByKey(RTSP_PATHS, RTSP_FINGERPRINTS, Fingerprint);
  }

  /** Distinct paths give distinct endpoint URLs. */
  lemma PathUrlsDistinct(scheme: string, ip: string, port: int, paths: seq<string>)
    requires NoDups(paths)
    ensures NoDups(PathUrls(scheme, ip, port, paths))
  {
    var urls := PathUrls(scheme, ip, port, paths);
    forall a, b | 0 <= a < b < |urls|
      ensures urls[a] != urls[b]
    {
      FrontDistinct("/", paths[a], paths[b]);
      EndpointPathDistinct(scheme, ip, port, "/" + paths[a], "/" + paths[b]);
    }
  }

  lemma RtspUrlsDistinct(ip: string, port: int)
    ensures NoDups(RtspUrls(ip, port))
  {
    RtspPathsDistinct();
    PathUrlsDistinct("rtsp", ip, port, RTSP_PATHS);
  }

  /**
   * `check_rtsp` returns `rtsp://ip:port/path` URLs only, in path order,
   * each at most once; a path's URL is returned iff one of the first
   * `RETRY_COUNT` attempts reads a 200 status line after misses only.
   */
  lemma RtspFoundSpec(ip: string, port: int, net: Network, kept: seq<string>)
    requires RtspFound(ip, port, net) == Returned(kept)
    ensures IsSubsequence(kept, RtspUrls(ip, port)) && NoDups(kept)
    ensures forall i | 0 <= i < |RTSP_PATHS| ::
      RtspUrls(ip, port)[i] in kept <==>
      exists j | 0 <= j < RETRY_COUNT ::
        RtspAttempt(net, RtspUrls(ip, port)[i])(j) == Hit &&
        forall j' | 0 <= j' < j :: RtspAttempt(net, RtspUrls(ip, port)[i])(j') == Miss
  {
    var urls := RtspUrls(ip, port);
    CollectReturned(urls, RtspVerdict(net), kept);
    RtspUrlsDistinct(ip, port);
    CollectNoDups(urls, RtspVerdict(net), kept);
    forall i | 0 <= i < |RTSP_PATHS|
      ensures urls[i] in kept <==>
              exists j | 0 <= j < RETRY_COUNT ::
                RtspAttempt(net, urls[i])(j) == Hit && forall j' | 0 <= j' < j :: RtspAttempt(net, urls[i])(j') == Miss
    {
      RetryOutcome(RtspAttempt(net, urls[i]));
      if urls[i] in kept {
        var k :| 0 <= k < |kept| && kept[k] == urls[i];
      }
    }
  }

  // ---------------------------------------------------------------------
  // check_hls and check_dash

  /** The two manifest probers differ only in their tables and marker. */
  datatype Manifest = Hls | Dash

  const HLS_PATHS: seq<string> := [
    "hls", "live", "stream", "streaming", "playlist", "channel",
    "live/stream", "live/channel1", "video", "media", "content",
    "stream1", "stream2", "ch1", "ch2", "feed1", "feed2"
  ]

  const DASH_PATHS: seq<string> := [
    "dash", "stream", "live", "content", "media", "channel",
    "video", "streaming", "manifest", "mpd", "output"
  ]

  function ManifestPaths(kind: Manifest): seq<string> {
    match kind
    case Hls => HLS_PATHS
    case Dash => DASH_PATHS
  }

  function ManifestFiles(kind: Manifest): (r: seq<string>)
    ensures |r| == 3
  {
    match kind
    case Hls => ["index.m3u8", "playlist.m3u8", "master.m3u8"]
    case Dash => ["manifest.mpd", "stream.mpd", "index.mpd"]
  }

  /** The playlist header tag (section 4.3.1.1 of RFC 8216) or the manifest's root element (ISO/IEC 23009-1). */
  function ManifestMarker(kind: Manifest): string {
    match kind
    case Hls => "#EXTM3U"
    case Dash => "<MPD"
  }

  /** `http://ip:port/{path}/{file}`. */
  function ManifestUrl(ip: string, port: int, path: string, file: string): string {
    EndpointUrl("http", ip, port, "/" + path + "/" + file)
  }

  /** The URLs of each file under one path, in file order. */
  function FileUrls(ip: string, port: int, path: string, files: seq<string>): (r: seq<string>)
    ensures |r| == |files|
  {
    seq(|files|, v requires 0 <= v < |files| => ManifestUrl(ip, port, path, files[v]))
  }

  /** One row of file URLs per path. */
  function GridRows(ip: string, port: int, paths: seq<string>, files: seq<string>): (r: seq<seq<string>>)
    ensures |r| == |paths|
  {
    seq(|paths|, i requires 0 <= i < |paths| => FileUrls(ip, port, paths[i], files))
  }

  /** Every URL of the files under each of `paths`, path-major and file-minor. */
  function UrlGrid(ip: string, port: int, paths: seq<string>, files: seq<string>): seq<string> {
    Flatten(GridRows(ip, port, paths, files))
  }

  /** One more path of the manifest loop: its file URLs' result is appended, or its exception escapes. */
  lemma ManifestRunStep(rows: seq<seq<string>>, i: int, verdict: string -> Outcome<bool>, streams: seq<string>,
                        found: Outcome<seq<string>>)
    requires 0 <= i < |rows| && Collect(Flatten(rows[..i]), verdict) == Returned(streams)
    requires found == Collect(rows[i], verdict)
    ensures found.Raised? ==> Collect(Flatten(rows), verdict) == Raised
    ensures found.Returned? ==> Collect(Flatten(rows[..i + 1]), verdict) == Returned(streams + found.value)
  {
    CollectRunStep(rows, i, verdict, streams);
  }

  /** Every candidate URL of one manifest prober. */
  function ManifestUrls(kind: Manifest, ip: string, port: int): seq<string> {
    UrlGrid(ip, port, ManifestPaths(kind), ManifestFiles(kind))
  }

  /**
   * Attempt `k` on `url`: status 200 with the marker in the body hits; any
   * other status, a body without the marker, a client error or a timeout
   * misses; a body that does not decode, or any other exception, escapes.
   */
  function ManifestAttempt(net: Network, url: string, marker: string): nat -> Attempt {
    (k: nat) =>
      match net.get(url, k)
      case Page(status, text) =>
        if status != 200 then Miss
        else (match text
              case None => Abort
              case Some(t) => if Contains(t, marker) then Hit else Miss)
      case ClientFailure => Miss
      case OtherGetError => Abort
  }

  function ManifestVerdict(net: Network, marker: string): string -> Outcome<bool> {
    url => Retry(ManifestAttempt(net, url, marker), 0)
  }

  /** What `check_hls` or `check_dash` returns, or Raised. */
  function ManifestFound(kind: Manifest, ip: string, port: int, net: Network): Outcome<seq<string>> {
    Collect(ManifestUrls(kind, ip, port), ManifestVerdict(net, ManifestMarker(kind)))
  }

  /** Proof aids like `RTSP_FINGERPRINTS`, for the HLS and DASH path lists. */
  const HLS_FINGERPRINTS: seq<int> := [
    223347, 289893, 422765, 619367, 553076, 484204, 748653, 879665, 357999,
    355681, 484212, 488241, 488242, 222001, 222002, 353841, 353842
  ]

  const DASH_FINGERPRINTS: seq<int> := [
    287848, 422765, 289893, 484212, 355681, 484204, 357999, 619367, 552308, 224612, 421748
  ]

  lemma HlsFingerprintsLow()
    ensures forall i | 0 <= i < 9 :: HLS_FINGERPRINTS[i] == Fingerprint(HLS_PATHS[i])
  {
  }

  lemma HlsFingerprintsHigh()
    ensures forall i | 9 <= i < |HLS_PATHS| :: HLS_FINGERPRINTS[i] == Fingerprint(HLS_PATHS[i])
  {
  }

  lemma HlsFingerprintsUnique()
    ensures NoDups(HLS_FINGERPRINTS)
  {
    HlsFingerprintsLowApart();
    HlsFingerprintsHighApart();
    HlsFingerprintsCrossApart(0, 5);
    HlsFingerprintsCrossApart(5, 9);
  }

  lemma HlsFingerprintsLowApart()
    ensures forall i, j | 0 <= i < j < 9 :: HLS_FINGERPRINTS[i] != HLS_FINGERPRINTS[j]
  {
  }

  lemma HlsFingerprintsHighApart()
    ensures forall i, j | 9 <= i < j < 17 :: HLS_FINGERPRINTS[i] != HLS_FINGERPRINTS[j]
  {
  }

  /** The fingerprints at `[lo, hi)` differ from the last eight. */
  lemma HlsFingerprintsCrossApart(lo: int, hi: int)
    requires (lo == 0 && hi == 5) || (lo == 5 && hi == 9)
    ensures forall i, j | lo <= i < hi && 9 <= j < 17 :: HLS_FINGERPRINTS[i] != HLS_FINGERPRINTS[j]
  {
  }

  lemma HlsPathsDistinct()
    ensures NoDups(ManifestPaths(Hls))
  {
    HlsFingerprintsLow();
    HlsFingerprintsHigh();
    HlsFingerprintsUnique();
    NoDupsByKey(HLS_PATHS, HLS_FINGERPRINTS, Fingerprint);
  }

  lemma DashFingerprints()
    ensures forall i | 0 <= i < |DASH_PATHS| :: DASH_FINGERPRINTS[i] == Fingerprint(DASH_PATHS[i])
  {
  }

  lemma DashFingerprintsUnique()
    ensures NoDups(DASH_FINGERPRINTS)
  {
  }

  lemma DashPathsDistinct()
    ensures NoDups(ManifestPaths(Dash))
  {
    DashFingerprints();
    DashFingerprintsUnique();
    NoDupsByKey(DASH_PATHS, DASH_FINGERPRINTS, Fingerprint);
  }

  lemma ManifestFilesDistinct(kind: Manifest)
    ensures NoDups(ManifestFiles(kind))
    ensures forall i | 0 <= i < 3 :: '/' !in ManifestFiles(kind)[i]
  {
  }

  lemma ManifestTablesDistinct(kind: Manifest)
    ensures NoDups(ManifestPaths(kind)) && NoDups(ManifestFiles(kind))
    ensures forall i | 0 <= i < 3 :: '/' !in ManifestFiles(kind)[i]
  {
    if kind == Hls { HlsPathsDistinct(); } else { DashPathsDistinct(); }
    ManifestFilesDistinct(kind);
  }

  /** Two manifest URLs differ when their paths or their slash-free file names differ. */
  lemma ManifestUrlPairDistinct(ip: string, port: int, pa: string, fa: string, pb: string, fb: string)
    requires '/' !in fa && '/' !in fb
    requires pa != pb || fa != fb
    ensures ManifestUrl(ip, port, pa, fa) != ManifestUrl(ip, port, pb, fb)
  {
    JoinInjective(pa, fa, pb, fb);
    FrontDistinct("/", pa + "/" + fa, pb + "/" + fb);
    assert "/" + pa + "/" + fa == "/" + (pa + "/" + fa);
    assert "/" + pb + "/" + fb == "/" + (pb + "/" + fb);
    EndpointPathDistinct("http", ip, port, "/" + pa + "/" + fa, "/" + pb + "/" + fb);
  }

  /** Distinct paths and distinct slash-free file names give a grid without repeated URLs. */
  lemma UrlGridDistinct(ip: string, port: int, paths: seq<string>, files: seq<string>)
    requires NoDups(paths) && NoDups(files)
    requires forall v | 0 <= v < |files| :: '/' !in files[v]
    ensures NoDups(UrlGrid(ip, port, paths, files))
  {
    var rows := GridRows(ip, port, paths, files);
    forall i | 0 <= i < |rows|
      ensures NoDups(rows[i])
    {
      forall v, v' | 0 <= v < v' < |files|
        ensures rows[i][v] != rows[i][v']
      {
        ManifestUrlPairDistinct(ip, port, paths[i], files[v], paths[i], files[v']);
      }
    }
    forall i, i', x | 0 <= i < i' < |rows| && x in rows[i]
      ensures x !in rows[i']
    {
      var v :| 0 <= v < |files| && rows[i][v] == x;
      forall v' | 0 <= v' < |files|
        ensures rows[i'][v'] != x
      {
        ManifestUrlPairDistinct(ip, port, paths[i], files[v], paths[i'], files[v']);
      }
    }
    FlattenNoDups(rows);
  }

  lemma ManifestUrlsDistinct(kind: Manifest, ip: string, port: int)
    ensures NoDups(ManifestUrls(kind, ip, port))
  {
    ManifestTablesDistinct(kind);
    UrlGridDistinct(ip, port, ManifestPaths(kind), ManifestFiles(kind));
  }

  /**
   * `check_hls`/`check_dash` return `http://ip:port/{path}/{file}` URLs
   * only, path-major and file-minor, each at most once; a URL is returned
   * iff one of the first `RETRY_COUNT` attempts gets status 200 with the
   * marker in the body, after misses only.
   */
  lemma ManifestFoundSpec(kind: Manifest, ip: string, port: int, net: Network, kept: seq<string>)
    requires ManifestFound(kind, ip, port, net) == Returned(kept)
    ensures IsSubsequence(kept, ManifestUrls(kind, ip, port)) && NoDups(kept)
    ensures forall n | 0 <= n < |ManifestUrls(kind, ip, port)| ::
      ManifestUrls(kind, ip, port)[n] in kept <==>
      exists j | 0 <= j < RETRY_COUNT ::
        ManifestAttempt(net, ManifestUrls(kind, ip, port)[n], ManifestMarker(kind))(j) == Hit &&
        forall j' | 0 <= j' < j :: ManifestAttempt(net, ManifestUrls(kind, ip, port)[n], ManifestMarker(kind))(j') == Miss
  {
    var urls := ManifestUrls(kind, ip, port);
    var verdict := ManifestVerdict(net, ManifestMarker(kind));
    CollectReturned(urls, verdict, kept);
    ManifestUrlsDistinct(kind, ip, port);
    CollectNoDups(urls, verdict, kept);
    forall n | 0 <= n < |urls|
      ensures urls[n] in kept <==>
              exists j | 0 <= j < RETRY_COUNT ::
                ManifestAttempt(net, urls[n], ManifestMarker(kind))(j) == Hit &&
                forall j' | 0 <= j' < j :: ManifestAttempt(net, urls[n], ManifestMarker(kind))(j') == Miss
    {
      RetryOutcome(ManifestAttempt(net, urls[n], ManifestMarker(kind)));
      if urls[n] in kept {
        var k :| 0 <= k < |kept| && kept[k] == urls[n];
      }
    }
  }

  // ---------------------------------------------------------------------
  // check_rtmp

  const RTMP_PATHS: seq<string> := [
    "live", "stream", "app", "broadcast", "channel",
    "streaming", "live/stream", "media", "content"
  ]

  lemma RtmpPathsDistinct()
    ensures NoDups(RTMP_PATHS)
  {
  }

  /** `rtmp://ip:port/path` for each path, in list order. */
  function RtmpUrls(ip: string, port: int): seq<string> {
    PathUrls("rtmp", ip, port, RTMP_PATHS)
  }

  /** What `check_rtmp(ip, port)` returns, or Raised. */
  function RtmpFound(ip: string, port: int, net: Network): Outcome<seq<string>> {
    match Utils.CheckPort(net.rtmpPortCheck(ip, port))
    case Raised => Raised
    case Returned(open) => Returned(if open then RtmpUrls(ip, port) else [])
  }

  /**
   * `check_rtmp` reports all nine endpoints, unverified, iff its port check
   * succeeds, and nothing iff the check fails quietly.
   */
  lemma RtmpFoundSpec(ip: string, port: int, net: Network)
    ensures RtmpFound(ip, port, net) == Returned(RtmpUrls(ip, port)) <==> net.rtmpPortCheck(ip, port) == Utils.Open
    ensures RtmpFound(ip, port, net) == Returned([]) <==>
            net.rtmpPortCheck(ip, port) != Utils.Open && net.rtmpPortCheck(ip, port) != Utils.OtherFailure
    ensures NoDups(RtmpUrls(ip, port))
  {
    assert RtmpUrls(ip, port) != [];
    RtmpPathsDistinct();
    PathUrlsDistinct("rtmp", ip, port, RTMP_PATHS);
  }

  // ---------------------------------------------------------------------
  // scan_host

  /**
   * The protocols `scan_host` has a prober for. Every other protocol of the
   * table (http, https, ws, wss) takes the HTTP branch, which hands the
   * future returned by `asyncio.gather` to `asyncio.create_task`; that call
   * accepts only a coroutine and raises TypeError.
   */
  predicate Startable(protocol: string) {
    protocol == "rtsp" || protocol == "hls" || protocol == "rtmp"
  }

  /**
   * The prober `scan_host` starts for an open `(protocol, port)`. A protocol
   * of the HTTP branch never gets a prober started (see `PortVerdict`); the
   * last case stands for its TypeError and is not reached from `Schedule`.
   */
  function Prober(ip: string, net: Network, protocol: string, port: int): Outcome<seq<string>> {
    if protocol == "rtsp" then RtspFound(ip, port, net)
    else if protocol == "hls" then ManifestFound(Hls, ip, port, net)
    else if protocol == "rtmp" then RtmpFound(ip, port, net)
    else Raised
  }

  /** The `(protocol, port)` pairs of one table row, in port order. */
  function ProtocolPairs(protocol: string, ports: seq<int>): (r: seq<(string, int)>)
    ensures |r| == |ports|
  {
    seq(|ports|, j requires 0 <= j < |ports| => (protocol, ports[j]))
  }

  /** One row per protocol of a port table, holding its `(protocol, port)` pairs. */
  function TableRows(t: seq<(string, seq<int>)>): (r: seq<seq<(string, int)>>)
    ensures |r| == |t|
    ensures forall k | 0 <= k < |t| :: r[k] == ProtocolPairs(t[k].0, t[k].1)
  {
    seq(|t|, k requires 0 <= k < |t| => ProtocolPairs(t[k].0, t[k].1))
  }

  function PortRows(): seq<seq<(string, int)>> {
    TableRows(Protocols.COMMON_STREAMING_PORTS)
  }

  /** Every `(protocol, port)` that `scan_host` checks, in the order it checks them. */
  function PortPairs(): seq<(string, int)> {
    Flatten(PortRows())
  }

  /** `check_port(ip, port, timeout=2.0)` for the pair answered True. */
  predicate PortOpen(ip: string, net: Network, pair: (string, int)) {
    Utils.CheckPort(net.portCheck(ip, pair.0, pair.1)) == Returned(true)
  }

  /**
   * What the port loop does with one pair: nothing when the port is not
   * open, a started prober when it is, and an escaping exception when
   * `check_port` raises or when the open port's protocol takes the HTTP
   * branch, whose `asyncio.create_task` raises TypeError.
   */
  function PortDecision(check: Outcome<bool>, protocol: string): Outcome<bool> {
    match check
    case Raised => Raised
    case Returned(open) => if open && !Startable(protocol) then Raised else Returned(open)
  }

  function PortVerdict(ip: string, net: Network): ((string, int)) -> Outcome<bool> {
    (pair: (string, int)) => PortDecision(Utils.CheckPort(net.portCheck(ip, pair.0, pair.1)), pair.0)
  }

  /** The probers `scan_host` starts: the open pairs in check order, or Raised if the port loop raises. */
  function Schedule(ip: string, net: Network): Outcome<seq<(string, int)>> {
    Collect(PortPairs(), PortVerdict(ip, net))
  }

  /** What a host adds: the URLs extended into the result set, and the number of failures counted. */
  datatype Effect = Effect(items: seq<string>, failures: nat)

  /** The loop over gathered results: URLs of returned lists are kept, each exception counts one failure. */
  function Gathered(started: seq<(string, int)>, result: ((string, int)) -> Outcome<seq<string>>): Effect
    decreases |started|
  {
    if started == [] then Effect([], 0)
    else
      var e := Gathered(DropLast(started), result);
      match result(Last(started))
      case Raised => Effect(e.items, e.failures + 1)
      case Returned(xs) => Effect(e.items + xs, e.failures)
  }

  function ProberFor(ip: string, net: Network): ((string, int)) -> Outcome<seq<string>> {
    (pair: (string, int)) => Prober(ip, net, pair.0, pair.1)
  }

  /** Folding in one more started prober. */
  lemma GatheredStep(started: seq<(string, int)>, i: int, result: ((string, int)) -> Outcome<seq<string>>)
    requires 0 <= i < |started|
    ensures Gathered(started[..i + 1], result) ==
      var e := Gathered(started[..i], result);
      match result(started[i])
      case Raised => Effect(e.items, e.failures + 1)
      case Returned(xs) => Effect(e.items + xs, e.failures)
  {
    assert DropLast(started[..i + 1]) == started[..i];
    assert Last(started[..i + 1]) == started[i];
  }

  /** The effect of one `scan_host(ip)`: an exception in the port loop aborts the host and counts one failure. */
  function HostEffect(ip: string, net: Network): Effect {
    match Schedule(ip, net)
    case Raised => Effect([], 1)
    case Returned(started) => Gathered(started, ProberFor(ip, net))
  }

  function Elems(items: seq<string>): set<string> {
    set x | x in items
  }

  /**
   * When the port loop completes, a started pair is one of the table's
   * pairs whose port is open and whose protocol has a prober, and every
   * open pair of the table is started.
   */
  lemma ScheduleSpec(ip: string, net: Network, started: seq<(string, int)>)
    requires Schedule(ip, net) == Returned(started)
    ensures IsSubsequence(started, PortPairs())
    ensures forall i | 0 <= i < |started| ::
      started[i] in PortPairs() && PortOpen(ip, net, started[i]) && Startable(started[i].0)
    ensures forall i | 0 <= i < |PortPairs()| && PortOpen(ip, net, PortPairs()[i]) :: PortPairs()[i] in started
  {
    PortLoopReturned(PortPairs(), ip, net, started);
  }

  /** `ScheduleSpec` for the port loop over any list of pairs. */
  lemma PortLoopReturned(pairs: seq<(string, int)>, ip: string, net: Network, started: seq<(string, int)>)
    requires Collect(pairs, PortVerdict(ip, net)) == Returned(started)
    ensures IsSubsequence(started, pairs)
    ensures forall i | 0 <= i < |started| ::
      started[i] in pairs && PortOpen(ip, net, started[i]) && Startable(started[i].0)
    ensures forall i | 0 <= i < |pairs| && PortOpen(ip, net, pairs[i]) :: pairs[i] in started
  {
    var verdict := PortVerdict(ip, net);
    CollectReturned(pairs, verdict, started);
    CollectRaised(pairs, verdict);
    forall i | 0 <= i < |pairs| && PortOpen(ip, net, pairs[i])
      ensures pairs[i] in started
    {
      assert verdict(pairs[i]) != Raised;
    }
  }

  /**
   * The port loop raises iff some check raises or some port of the HTTP
   * branch is open; otherwise every check answered and only startable
   * protocols were found open.
   */
  lemma ScheduleRaisedIff(ip: string, net: Network)
    ensures Schedule(ip, net).Raised? <==>
      exists i | 0 <= i < |PortPairs()| ::
        Utils.CheckPort(net.portCheck(ip, PortPairs()[i].0, PortPairs()[i].1)).Raised? ||
        (PortOpen(ip, net, PortPairs()[i]) && !Startable(PortPairs()[i].0))
  {
    PortLoopRaisedIff(PortPairs(), ip, net);
  }

  /** `ScheduleRaisedIff` for the port loop over any list of pairs. */
  lemma PortLoopRaisedIff(pairs: seq<(string, int)>, ip: string, net: Network)
    ensures Collect(pairs, PortVerdict(ip, net)).Raised? <==>
      exists i | 0 <= i < |pairs| ::
        Utils.CheckPort(net.portCheck(ip, pairs[i].0, pairs[i].1)).Raised? ||
        (PortOpen(ip, net, pairs[i]) && !Startable(pairs[i].0))
  {
    var verdict := PortVerdict(ip, net);
    CollectRaised(pairs, verdict);
    if exists i | 0 <= i < |pairs| :: verdict(pairs[i]) == Raised {
      var i :| 0 <= i < |pairs| && verdict(pairs[i]) == Raised;
      PortVerdictRaised(ip, net, pairs[i]);
    }
    if exists i | 0 <= i < |pairs| ::
        Utils.CheckPort(net.portCheck(ip, pairs[i].0, pairs[i].1)).Raised? ||
        (PortOpen(ip, net, pairs[i]) && !Startable(pairs[i].0)) {
      var i :| 0 <= i < |pairs| &&
        (Utils.CheckPort(net.portCheck(ip, pairs[i].0, pairs[i].1)).Raised? ||
         (PortOpen(ip, net, pairs[i]) && !Startable(pairs[i].0)));
      PortVerdictRaised(ip, net, pairs[i]);
    }
  }

  /** One pair's verdict raises iff its check raises or it is an open port without a prober. */
  lemma PortVerdictRaised(ip: string, net: Network, pair: (string, int))
    ensures PortVerdict(ip, net)(pair) == Raised <==>
      Utils.CheckPort(net.portCheck(ip, pair.0, pair.1)).Raised? || (PortOpen(ip, net, pair) && !Startable(pair.0))
  {
  }

  /** An open port of the HTTP branch aborts the host: nothing is added and one failure is counted. */
  lemma OpenHttpPortAbortsHost(ip: string, net: Network, i: int)
    requires 0 <= i < |PortPairs()|
    requires PortOpen(ip, net, PortPairs()[i]) && !Startable(PortPairs()[i].0)
    ensures HostEffect(ip, net) == Effect([], 1)
  {
    CollectRaised(PortPairs(), PortVerdict(ip, net));
  }

  /**
   * The URLs gathered are those of the probers that returned, and each
   * started prober counts at most one failure.
   */
  lemma {:induction false} GatheredMembers(started: seq<(string, int)>, result: ((string, int)) -> Outcome<seq<string>>, x: string)
    ensures x in Gathered(started, result).items <==>
      exists k | 0 <= k < |started| :: result(started[k]).Returned? && x in result(started[k]).value
    ensures Gathered(started, result).failures <= |started|
    decreases |started|
  {
    if started != [] {
      GatheredMembers(DropLast(started), result, x);
      GatheredLast(started, result, x);
      ReturnedWitnessLast(started, result, x);
    }
  }

  /** Unfolding `Gathered` once: the last prober adds its URLs, or one failure. */
  lemma GatheredLast(started: seq<(string, int)>, result: ((string, int)) -> Outcome<seq<string>>, x: string)
    requires started != []
    ensures x in Gathered(started, result).items <==>
      x in Gathered(DropLast(started), result).items ||
      (result(Last(started)).Returned? && x in result(Last(started)).value)
    ensures Gathered(started, result).failures <= Gathered(DropLast(started), result).failures + 1
  {
  }

  /** A prober of a non-empty list that returned `x` is one of its prefix or its last prober. */
  lemma ReturnedWitnessLast(started: seq<(string, int)>, result: ((string, int)) -> Outcome<seq<string>>, x: string)
    requires started != []
    ensures (exists k | 0 <= k < |started| :: result(started[k]).Returned? && x in result(started[k]).value) <==>
      (exists k | 0 <= k < |started| - 1 :: result(DropLast(started)[k]).Returned? && x in result(DropLast(started)[k]).value) ||
      (result(Last(started)).Returned? && x in result(Last(started)).value)
  {
    var init, n, last := DropLast(started), |started| - 1, Last(started);
    assert started[n] == last;
    if exists k | 0 <= k < |started| :: result(started[k]).Returned? && x in result(started[k]).value {
      var k :| 0 <= k < |started| && result(started[k]).Returned? && x in result(started[k]).value;
      if k < n {
        assert init[k] == started[k];
        assert result(init[k]).Returned? && x in result(init[k]).value;
      } else {
        assert k == n && started[k] == last;
      }
    }
    if exists k | 0 <= k < n :: result(init[k]).Returned? && x in result(init[k]).value {
      var k :| 0 <= k < n && result(init[k]).Returned? && x in result(init[k]).value;
      assert started[k] == init[k];
      assert result(started[k]).Returned? && x in result(started[k]).value;
    }
    if result(last).Returned? && x in result(last).value {
      assert result(started[n]).Returned? && x in result(started[n]).value;
    }
  }

  /** When every port check answers False, the host adds nothing and counts no failure. */
  lemma AllPortsClosed(ip: string, net: Network)
    requires forall i | 0 <= i < |PortPairs()| ::
      Utils.CheckPort(net.portCheck(ip, PortPairs()[i].0, PortPairs()[i].1)) == Returned(false)
    ensures HostEffect(ip, net) == Effect([], 0)
  {
    var verdict := PortVerdict(ip, net);
    forall i | 0 <= i < |PortPairs()|
      ensures verdict(PortPairs()[i]) == Returned(false)
    {
    }
    CollectNoneKept(PortPairs(), verdict);
  }

  /** `'dash'` is not a protocol of the port table, so the DASH prober is never started. */
  lemma DashNeverScheduled()
    ensures forall pair | pair in PortPairs() :: pair.0 != "dash"
  {
    forall pair | pair in PortPairs()
      ensures pair.0 != "dash"
    {
      FlattenMembers(PortRows(), pair);
      var k :| 0 <= k < |PortRows()| && pair in PortRows()[k];
    }
  }

  function HostItems(net: Network): string -> set<string> {
    ip => Elems(HostEffect(ip, net).items)
  }

  function HostFailures(net: Network): string -> nat {
    ip => HostEffect(ip, net).failures
  }

  /** The result set after scanning `hosts`, one host after the other. */
  function NetworkItems(hosts: seq<string>, net: Network): set<string> {
    UnionOver(hosts, HostItems(net))
  }

  function NetworkFailures(hosts: seq<string>, net: Network): nat {
    SumOver(hosts, HostFailures(net))
  }

  /** Scanning one more host adds its URLs and its failures. */
  lemma NetworkStep(hosts: seq<string>, i: int, net: Network)
    requires 0 <= i < |hosts|
    ensures NetworkItems(hosts[..i + 1], net) == NetworkItems(hosts[..i], net) + Elems(HostEffect(hosts[i], net).items)
    ensures NetworkFailures(hosts[..i + 1], net) == NetworkFailures(hosts[..i], net) + HostEffect(hosts[i], net).failures
  {
    assert DropLast(hosts[..i + 1]) == hosts[..i];
  }

  /** The network loop's bookkeeping after scanning `hosts[i]`: the totals now cover `hosts[..i + 1]`. */
  lemma HostScanned(hosts: seq<string>, i: int, net: Network,
                    streams0: set<string>, streams: set<string>, streams': set<string>,
                    failed0: nat, failed: nat, failed': nat)
    requires 0 <= i < |hosts|
    requires streams == streams0 + NetworkItems(hosts[..i], net)
    requires streams' == streams + Elems(HostEffect(hosts[i], net).items)
    requires failed == failed0 + NetworkFailures(hosts[..i], net)
    requires failed' == failed + HostEffect(hosts[i], net).failures
    ensures streams' == streams0 + NetworkItems(hosts[..i + 1], net)
    ensures failed' == failed0 + NetworkFailures(hosts[..i + 1], net)
  {
    NetworkStep(hosts, i, net);
  }

  /** A URL is found by a network scan iff some host contributes it. */
  lemma NetworkItemsMembers(hosts: seq<string>, net: Network, x: string)
    ensures x in NetworkItems(hosts, net) <==> exists k | 0 <= k < |hosts| :: x in HostEffect(hosts[k], net).items
  {
    UnionOverMembers(hosts, HostItems(net), x);
  }

  /**
   * The hosts are scanned concurrently in the source; the result set does
   * not depend on the order in which they finish.
   */
  lemma NetworkItemsOrderFree(hosts: seq<string>, hosts': seq<string>, net: Network)
    requires multiset(hosts) == multiset(hosts')
    ensures NetworkItems(hosts, net) == NetworkItems(hosts', net)
  {
    UnionOverOrderFree(hosts, hosts', HostItems(net));
  }

  // ---------------------------------------------------------------------
  // The scanner

  class StreamScanner {
    var discoveredStreams: set<string>
    var scanCount: nat
    var totalHosts: nat
    var successfulScans: nat
    var failedScans: nat

    constructor()
      ensures discoveredStreams == {}
      ensures scanCount == 0 && totalHosts == 0 && successfulScans == 0 && failedScans == 0
    {
      discoveredStreams := {};
      scanCount := 0;
      totalHosts := 0;
      successfulScans := 0;
      failedScans := 0;
    }

    /** `check_rtsp`: paths in order, attempts per path until a 200 status line. */
    method CheckRtsp(ip: string, port: int, net: Network) returns (r: Outcome<seq<string>>)
      ensures r == RtspFound(ip, port, net)
    {
      r := CheckRtspPaths(RTSP_PATHS, ip, port, net);
    }

    /** The path loop of `check_rtsp`, over any path list. */
    method CheckRtspPaths(paths: seq<string>, ip: string, port: int, net: Network) returns (r: Outcome<seq<string>>)
      ensures r == Collect(PathUrls("rtsp", ip, port, paths), RtspVerdict(net))
    {
      ghost var cands := PathUrls("rtsp", ip, port, paths);
      ghost var verdict := RtspVerdict(net);
      var streams: seq<string> := [];
      var i := 0;
      while i < |paths|
        invariant 0 <= i <= |paths|
        invariant Collect(cands[..i], verdict) == Returned(streams)
      {
        var url := EndpointUrl("rtsp", ip, port, "/" + paths[i]);
        CollectStep(cands, i, verdict);
        var found := RetryLoop(RtspAttempt(net, url));
        if found.Raised? {
          CollectPrefixRaised(cands, i + 1, verdict);
          return Raised;
        }
        if found.value {
          streams := streams + [url];
        }
        i := i + 1;
      }
      assert cands[..|paths|] == cands;
      return Returned(streams);
    }

    /** The file loop of `check_hls` and `check_dash` under one path: files, then attempts. */
    method CheckFiles(path: string, files: seq<string>, marker: string, ip: string, port: int, net: Network)
      returns (r: Outcome<seq<string>>)
      ensures r == Collect(FileUrls(ip, port, path, files), ManifestVerdict(net, marker))
    {
      ghost var cands := FileUrls(ip, port, path, files);
      ghost var verdict := ManifestVerdict(net, marker);
      var streams: seq<string> := [];
      var v := 0;
      while v < |files|
        invariant 0 <= v <= |files|
        invariant Collect(cands[..v], verdict) == Returned(streams)
      {
        var url := ManifestUrl(ip, port, path, files[v]);
        CollectStep(cands, v, verdict);
        var found := RetryLoop(ManifestAttempt(net, url, marker));
        if found.Raised? {
          CollectPrefixRaised(cands, v + 1, verdict);
          return Raised;
        }
        if found.value {
          streams := streams + [url];
        }
        v := v + 1;
      }
      assert cands[..|files|] == cands;
      return Returned(streams);
    }

    /** The loop shared by `check_hls` and `check_dash`: paths, then files, then attempts. */
    method CheckManifests(paths: seq<string>, files: seq<string>, marker: string, ip: string, port: int, net: Network)
      returns (r: Outcome<seq<string>>)
      ensures r == Collect(UrlGrid(ip, port, paths, files), ManifestVerdict(net, marker))
    {
      ghost var rows := GridRows(ip, port, paths, files);
      ghost var verdict := ManifestVerdict(net, marker);
      assert UrlGrid(ip, port, paths, files) == Flatten(rows);
      var streams: seq<string> := [];
      var i := 0;
      while i < |paths|
        invariant 0 <= i <= |paths|
        invariant Collect(Flatten(rows[..i]), verdict) == Returned(streams)
      {
        var found := CheckFiles(paths[i], files, marker, ip, port, net);
        assert rows[i] == FileUrls(ip, port, paths[i], files);
        ManifestRunStep(rows, i, verdict, streams, found);
        if found.Raised? {
          return Raised;
        }
        streams := streams + found.value;
        i := i + 1;
      }
      assert rows[..|paths|] == rows;
      return Returned(streams);
    }

    /** `check_hls`: looks for `#EXTM3U`. */
    method CheckHls(ip: string, port: int, net: Network) returns (r: Outcome<seq<string>>)
      ensures r == ManifestFound(Hls, ip, port, net)
    {
      r := CheckManifests(ManifestPaths(Hls), ManifestFiles(Hls), ManifestMarker(Hls), ip, port, net);
    }

    /** `check_dash`: looks for `<MPD`. */
    method CheckDash(ip: string, port: int, net: Network) returns (r: Outcome<seq<string>>)
      ensures r == ManifestFound(Dash, ip, port, net)
    {
      r := CheckManifests(ManifestPaths(Dash), ManifestFiles(Dash), ManifestMarker(Dash), ip, port, net);
    }

    /** `check_rtmp`: one port check, then every path without looking at content. */
    method CheckRtmp(ip: string, port: int, net: Network) returns (r: Outcome<seq<string>>)
      ensures r == RtmpFound(ip, port, net)
    {
      var open := Utils.CheckPort(net.rtmpPortCheck(ip, port));
      if open.Raised? {
        return Raised;
      }
      var streams: seq<string> := [];
      if open.value {
        streams := ListPaths("rtmp", RTMP_PATHS, ip, port);
      }
      return Returned(streams);
    }

    /** The path loop of `check_rtmp`: one URL per path, in order. */
    method ListPaths(scheme: string, paths: seq<string>, ip: string, port: int) returns (streams: seq<string>)
      ensures streams == PathUrls(scheme, ip, port, paths)
    {
      ghost var urls := PathUrls(scheme, ip, port, paths);
      streams := [];
      var i := 0;
      while i < |paths|
        invariant 0 <= i <= |paths|
        invariant streams == urls[..i]
      {
        var url := EndpointUrl(scheme, ip, port, "/" + paths[i]);
        assert urls[i] == url;
        assert urls[..i + 1] == urls[..i] + [url];
        streams := streams + [url];
        i := i + 1;
      }
      assert urls[..|paths|] == urls;
    }

    /**
     * The port checks of one protocol row: the pairs whose port answered,
     * or Raised when a check raises or a port of the HTTP branch is open.
     */
    method CheckRow(protocol: string, ports: seq<int>, ip: string, net: Network) returns (r: Outcome<seq<(string, int)>>)
      ensures r == Collect(ProtocolPairs(protocol, ports), PortVerdict(ip, net))
    {
      ghost var cands := ProtocolPairs(protocol, ports);
      ghost var verdict := PortVerdict(ip, net);
      var started: seq<(string, int)> := [];
      var j := 0;
      while j < |ports|
        invariant 0 <= j <= |ports|
        invariant Collect(cands[..j], verdict) == Returned(started)
      {
        CollectStep(cands, j, verdict);
        var open := Utils.CheckPort(net.portCheck(ip, protocol, ports[j]));
        assert cands[j] == (protocol, ports[j]) && verdict(cands[j]) == PortDecision(open, protocol);
        if open.Raised? || (open.value && !Startable(protocol)) {
          // check_port raised, or asyncio.create_task refused the HTTP branch's future
          CollectPrefixRaised(cands, j + 1, verdict);
          return Raised;
        }
        if open.value {
          started := started + [(protocol, ports[j])];
        }
        j := j + 1;
      }
      assert cands[..|ports|] == cands;
      return Returned(started);
    }

    /**
     * The port-check loop of `scan_host` over a port table: the pairs whose
     * port answered, in table order, or Raised when a check raises.
     */
    method OpenPorts(table: seq<(string, seq<int>)>, ip: string, net: Network) returns (r: Outcome<seq<(string, int)>>)
      ensures r == Collect(Flatten(TableRows(table)), PortVerdict(ip, net))
    {
      ghost var rows := TableRows(table);
      ghost var verdict := PortVerdict(ip, net);
      var started: seq<(string, int)> := [];
      var k := 0;
      while k < |table|
        invariant 0 <= k <= |table|
        invariant Collect(Flatten(rows[..k]), verdict) == Returned(started)
      {
        var found := CheckRow(table[k].0, table[k].1, ip, net);
        assert found == Collect(rows[k], verdict);
        CollectRunStep(rows, k, verdict, started);
        if found.Raised? {
          return Raised;
        }
        started := started + found.value;
        k := k + 1;
      }
      assert rows[..|table|] == rows;
      return Returned(started);
    }

    /** The gathering loop of `scan_host`: each started prober's result, folded in order. */
    method RunProbers(started: seq<(string, int)>, ip: string, net: Network) returns (e: Effect)
      requires forall i | 0 <= i < |started| :: Startable(started[i].0)
      ensures e == Gathered(started, ProberFor(ip, net))
    {
      var streams: seq<string> := [];
      var failures: nat := 0;
      var i := 0;
      while i < |started|
        invariant 0 <= i <= |started|
        invariant Gathered(started[..i], ProberFor(ip, net)) == Effect(streams, failures)
      {
        var protocol := started[i].0;
        var port := started[i].1;
        var result: Outcome<seq<string>>;
        if protocol == "rtsp" {
          result := CheckRtsp(ip, port, net);
        } else if protocol == "hls" {
          result := CheckHls(ip, port, net);
        } else {
          result := CheckRtmp(ip, port, net);
        }
        assert result == Prober(ip, net, protocol, port) == ProberFor(ip, net)(started[i]);
        GatheredStep(started, i, ProberFor(ip, net));
        if result.Raised? {
          failures := failures + 1;
        } else {
          streams := streams + result.value;
        }
        i := i + 1;
      }
      assert started[..|started|] == started;
      return Effect(streams, failures);
    }

    /**
     * `scan_host(ip)`. The port checks run first, in table order; an
     * exception from one, or the TypeError of an open port of the HTTP
     * branch, aborts the host with one failure. Then the
     * started probers' results are folded in order. The progress line
     * divides by `total_hosts`, so on a scanner whose total is 0 the call
     * ends in ZeroDivisionError after the counters have moved:
     * `progressRaised` reports that.
     */
    method ScanHost(ip: string, net: Network) returns (progressRaised: bool)
      modifies this
      ensures scanCount == old(scanCount) + 1
      ensures discoveredStreams == old(discoveredStreams) + Elems(HostEffect(ip, net).items)
      ensures failedScans == old(failedScans) + HostEffect(ip, net).failures
      ensures successfulScans == old(successfulScans) && totalHosts == old(totalHosts)
      ensures progressRaised <==> totalHosts == 0
    {
      var scheduled := OpenPorts(Protocols.COMMON_STREAMING_PORTS, ip, net);
      assert scheduled == Schedule(ip, net);
      if scheduled.Raised? {
        assert HostEffect(ip, net) == Effect([], 1);
        failedScans := failedScans + 1;
        scanCount := scanCount + 1;
        return totalHosts == 0;
      }
      ScheduleSpec(ip, net, scheduled.value);
      var e := RunProbers(scheduled.value, ip, net);
      assert e == HostEffect(ip, net);
      failedScans := failedScans + e.failures;
      discoveredStreams := discoveredStreams + Elems(e.items);
      scanCount := scanCount + 1;
      return totalHosts == 0;
    }

    /**
     * `scan_network` over a given host list: an empty list sets the total to
     * 0 and returns the empty set; otherwise every host is scanned and the
     * whole result set is returned.
     */
    method ScanNetwork(hosts: seq<string>, net: Network) returns (found: set<string>)
      modifies this
      ensures totalHosts == |hosts| && successfulScans == old(successfulScans)
      ensures hosts == [] ==>
        found == {} && discoveredStreams == old(discoveredStreams) &&
        scanCount == old(scanCount) && failedScans == old(failedScans)
      ensures hosts != [] ==>
        discoveredStreams == old(discoveredStreams) + NetworkItems(hosts, net) && found == discoveredStreams &&
        scanCount == old(scanCount) + |hosts| && failedScans == old(failedScans) + NetworkFailures(hosts, net)
    {
      totalHosts := |hosts|;
      if hosts == [] {
        return {};
      }
      var i := 0;
      while i < |hosts|
        invariant 0 <= i <= |hosts|
        invariant totalHosts == |hosts| && successfulScans == old(successfulScans)
        invariant discoveredStreams == old(discoveredStreams) + NetworkItems(hosts[..i], net)
        invariant scanCount == old(scanCount) + i
        invariant failedScans == old(failedScans) + NetworkFailures(hosts[..i], net)
      {
        ghost var streamsBefore, failedBefore := discoveredStreams, failedScans;
        var _ := ScanHost(hosts[i], net);
        HostScanned(hosts, i, net, old(discoveredStreams), streamsBefore, discoveredStreams,
                    old(failedScans), failedBefore, failedScans);
        i := i + 1;
      }
      assert hosts[..|hosts|] == hosts;
      found := discoveredStreams;
    }
  }
}
