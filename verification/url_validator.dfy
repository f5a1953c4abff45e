/**
 * url_validator.py: `URLValidator.validate_url` tries every scheme and
 * well-known streaming path on one host and port and keeps the URLs whose
 * probe succeeds; `check_content_type` asks whether a HEAD response names
 * a media type. The validator holds no state besides its constant path
 * list, so it is modelled by module-level members.
 */
module UrlValidator {
  import opened Common
  import opened Text
  import opened Seqs
  import Utils

  /** The path suffixes tried for every scheme, in order. */
  const STREAMING_PATHS: seq<string> :=
    ["/stream", "/live", "/hls", "/dash", "/rtsp", "/streaming", "/video", "/media"]

  /** Port 443 is tried as https only; any other port as http, https and rtsp. */
  function Schemes(port: int): (r: seq<string>)
    ensures port == 443 ==> r == ["https"]
    ensures port != 443 ==> r == ["http", "https", "rtsp"]
  {
    if port != 443 then ["http", "https", "rtsp"] else ["https"]
  }

  /**
   * One probe: a HEAD request answered with status 200 for http and https
   * (any exception counts as a miss), a TCP connect to `ip:port` returning
   * 0 for rtsp.
   */
  predicate Accepted(scheme: string, ip: string, port: int, url: string,
                     head: string -> Utils.HttpReply, connect: (string, int) -> Outcome<int>)
  {
    if scheme == "http" || scheme == "https" then head(url).Reply? && head(url).status == 200
    else scheme == "rtsp" && connect(ip, port) == Returned(0)
  }

  function KeepAccepted(ip: string, port: int, head: string -> Utils.HttpReply,
                        connect: (string, int) -> Outcome<int>): (string, string) -> bool
  {
    (scheme, url) => Accepted(scheme, ip, port, url, head, connect)
  }

  function KeepAll(): (string, string) -> bool {
    (scheme, url) => true
  }

  /** The URL of a scheme and path on the host and port under validation. */
  function UrlOn(ip: string, port: int): (string, string) -> string {
    (scheme, path) => EndpointUrl(scheme, ip, port, path)
  }

  /** The URLs of `paths` under `scheme` that `keep` retains, in path order. */
  function SelectPaths(scheme: string, paths: seq<string>, url: (string, string) -> string,
                       keep: (string, string) -> bool): seq<string>
    decreases |paths|
  {
    if paths == [] then []
    else
      var u := url(scheme, Last(paths));
      SelectPaths(scheme, DropLast(paths), url, keep) + (if keep(scheme, u) then [u] else [])
  }

  /** The retained URLs for every scheme, scheme-major, path-minor. */
  function SelectSchemes(schemes: seq<string>, paths: seq<string>, url: (string, string) -> string,
                         keep: (string, string) -> bool): seq<string>
    decreases |schemes|
  {
    if schemes == [] then []
    else SelectSchemes(DropLast(schemes), paths, url, keep) + SelectPaths(Last(schemes), paths, url, keep)
  }

  /** Every URL `validate_url` tries, in the order it tries them. */
  function CandidateUrls(ip: string, port: int): seq<string> {
    SelectSchemes(Schemes(port), STREAMING_PATHS, UrlOn(ip, port), KeepAll())
  }

  /** What `validate_url` returns for the given network behaviour. */
  function ValidUrls(ip: string, port: int, head: string -> Utils.HttpReply,
                     connect: (string, int) -> Outcome<int>): seq<string>
  {
    SelectSchemes(Schemes(port), STREAMING_PATHS, UrlOn(ip, port), KeepAccepted(ip, port, head, connect))
  }

  /** The body of the inner loop of `validate_url`: the probe for one candidate. */
  method TryCandidate(scheme: string, ip: string, port: int, url: string,
                      head: string -> Utils.HttpReply, connect: (string, int) -> Outcome<int>) returns (ok: bool)
    ensures ok == Accepted(scheme, ip, port, url, head, connect)
  {
    ok := false;
    if scheme == "http" || scheme == "https" {
      var response := head(url);
      ok := response.Reply? && response.status == 200;
    } else if scheme == "rtsp" {
      var result := connect(ip, port);
      ok := result == Returned(0);
    }
  }

  /** The inner loop of `validate_url`: every path under one scheme, in order. */
  method TryPaths(scheme: string, ip: string, port: int, head: string -> Utils.HttpReply,
                  connect: (string, int) -> Outcome<int>) returns (found: seq<string>)
    ensures found == SelectPaths(scheme, STREAMING_PATHS, UrlOn(ip, port), KeepAccepted(ip, port, head, connect))
  {
    ghost var url := UrlOn(ip, port);
    ghost var keep := KeepAccepted(ip, port, head, connect);
    ghost var paths := STREAMING_PATHS;
    found := [];
    var j := 0;
    while j < |STREAMING_PATHS|
      invariant 0 <= j <= |paths|
      invariant found == SelectPaths(scheme, paths[..j], url, keep)
    {
      assert DropLast(paths[..j + 1]) == paths[..j] && Last(paths[..j + 1]) == paths[j];
      var candidate := EndpointUrl(scheme, ip, port, STREAMING_PATHS[j]);
      var ok := TryCandidate(scheme, ip, port, candidate, head, connect);
      if ok {
        found := found + [candidate];
      }
      j := j + 1;
    }
    assert paths[..|paths|] == paths;
  }

  /** `validate_url`: for each scheme in order, the URLs of its paths whose probe succeeds. */
  method ValidateUrl(ip: string, port: int, head: string -> Utils.HttpReply,
                     connect: (string, int) -> Outcome<int>) returns (valid: seq<string>)
    ensures valid == ValidUrls(ip, port, head, connect)
  {
    valid := [];
    var schemes := Schemes(port);
    ghost var url := UrlOn(ip, port);
    ghost var keep := KeepAccepted(ip, port, head, connect);
    var i := 0;
    while i < |schemes|
      invariant 0 <= i <= |schemes|
      invariant valid == SelectSchemes(schemes[..i], STREAMING_PATHS, url, keep)
    {
      assert DropLast(schemes[..i + 1]) == schemes[..i] && Last(schemes[..i + 1]) == schemes[i];
      var found := TryPaths(schemes[i], ip, port, head, connect);
      valid := valid + found;
      i := i + 1;
    }
    assert schemes[..|schemes|] == schemes;
  }

  lemma {:induction false} SelectPathsMembers(scheme: string, paths: seq<string>, url: (string, string) -> string,
                                              keep: (string, string) -> bool, u: string)
    ensures u in SelectPaths(scheme, paths, url, keep) <==>
            exists j | 0 <= j < |paths| :: u == url(scheme, paths[j]) && keep(scheme, u)
    decreases |paths|
  {
    if paths != [] {
      var init := DropLast(paths);
      SelectPathsMembers(scheme, init, url, keep, u);
      assert forall j | 0 <= j < |init| :: init[j] == paths[j];
    }
  }

  lemma {:induction false} SelectSchemesMembers(schemes: seq<string>, paths: seq<string>, url: (string, string) -> string,
                                                keep: (string, string) -> bool, u: string)
    ensures u in SelectSchemes(schemes, paths, url, keep) <==>
            exists i, j | 0 <= i < |schemes| && 0 <= j < |paths| :: u == url(schemes[i], paths[j]) && keep(schemes[i], u)
    decreases |schemes|
  {
    if schemes != [] {
      var init := DropLast(schemes);
      SelectSchemesMembers(init, paths, url, keep, u);
      SelectPathsMembers(Last(schemes), paths, url, keep, u);
      assert SelectSchemes(schemes, paths, url, keep) ==
        SelectSchemes(init, paths, url, keep) + SelectPaths(Last(schemes), paths, url, keep);
      SchemesWitnessLast(schemes, paths, url, keep, u);
    }
  }

  /** A witness scheme of a non-empty list is one of its prefix or its last scheme. */
  lemma SchemesWitnessLast(schemes: seq<string>, paths: seq<string>, url: (string, string) -> string,
                           keep: (string, string) -> bool, u: string)
    requires schemes != []
    ensures (exists i, j | 0 <= i < |schemes| && 0 <= j < |paths| :: u == url(schemes[i], paths[j]) && keep(schemes[i], u)) <==>
            (exists i, j | 0 <= i < |schemes| - 1 && 0 <= j < |paths| ::
               u == url(DropLast(schemes)[i], paths[j]) && keep(DropLast(schemes)[i], u)) ||
            (exists j | 0 <= j < |paths| :: u == url(Last(schemes), paths[j]) && keep(Last(schemes), u))
  {
    var init, n, last := DropLast(schemes), |schemes| - 1, Last(schemes);
    assert schemes[n] == last;
    if exists i, j | 0 <= i < n && 0 <= j < |paths| :: u == url(init[i], paths[j]) && keep(init[i], u) {
      var i, j :| 0 <= i < n && 0 <= j < |paths| && u == url(init[i], paths[j]) && keep(init[i], u);
      assert init[i] == schemes[i];
      assert u == url(schemes[i], paths[j]) && keep(schemes[i], u);
    }
    if exists j | 0 <= j < |paths| :: u == url(last, paths[j]) && keep(last, u) {
      var j :| 0 <= j < |paths| && u == url(last, paths[j]) && keep(last, u);
      assert u == url(schemes[n], paths[j]) && keep(schemes[n], u);
    }
    if exists i, j | 0 <= i < |schemes| && 0 <= j < |paths| :: u == url(schemes[i], paths[j]) && keep(schemes[i], u) {
      var i, j :| 0 <= i < |schemes| && 0 <= j < |paths| && u == url(schemes[i], paths[j]) && keep(schemes[i], u);
      if i < n {
        assert init[i] == schemes[i];
        assert u == url(init[i], paths[j]) && keep(init[i], u);
      } else {
        assert i == n;
        assert u == url(last, paths[j]) && keep(last, u);
      }
    }
  }

  /** A URL is returned iff it is built from a tried scheme and path and its probe succeeds. */
  lemma ValidUrlsMembers(ip: string, port: int, head: string -> Utils.HttpReply,
                         connect: (string, int) -> Outcome<int>, u: string)
    ensures u in ValidUrls(ip, port, head, connect) <==>
            exists i, j | 0 <= i < |Schemes(port)| && 0 <= j < |STREAMING_PATHS| ::
              u == EndpointUrl(Schemes(port)[i], ip, port, STREAMING_PATHS[j]) &&
              Accepted(Schemes(port)[i], ip, port, u, head, connect)
  {
    AcceptedMembers(Schemes(port), STREAMING_PATHS, ip, port, head, connect, u);
  }

  /** `ValidUrlsMembers` for any scheme and path lists. */
  lemma AcceptedMembers(schemes: seq<string>, paths: seq<string>, ip: string, port: int,
                        head: string -> Utils.HttpReply, connect: (string, int) -> Outcome<int>, u: string)
    ensures u in SelectSchemes(schemes, paths, UrlOn(ip, port), KeepAccepted(ip, port, head, connect)) <==>
            exists i, j | 0 <= i < |schemes| && 0 <= j < |paths| ::
              u == EndpointUrl(schemes[i], ip, port, paths[j]) && Accepted(schemes[i], ip, port, u, head, connect)
  {
    var url, keep := UrlOn(ip, port), KeepAccepted(ip, port, head, connect);
    SelectSchemesMembers(schemes, paths, url, keep, u);
    if u in SelectSchemes(schemes, paths, url, keep) {
      var i, j :| 0 <= i < |schemes| && 0 <= j < |paths| && u == url(schemes[i], paths[j]) && keep(schemes[i], u);
      assert u == EndpointUrl(schemes[i], ip, port, paths[j]) && Accepted(schemes[i], ip, port, u, head, connect);
    }
    if exists i, j | 0 <= i < |schemes| && 0 <= j < |paths| ::
         u == EndpointUrl(schemes[i], ip, port, paths[j]) && Accepted(schemes[i], ip, port, u, head, connect) {
      var i, j :| 0 <= i < |schemes| && 0 <= j < |paths| &&
                  u == EndpointUrl(schemes[i], ip, port, paths[j]) && Accepted(schemes[i], ip, port, u, head, connect);
      assert u == url(schemes[i], paths[j]) && keep(schemes[i], u);
    }
  }

  lemma {:induction false} SelectPathsSubsequence(scheme: string, paths: seq<string>, url: (string, string) -> string,
                                                  keep: (string, string) -> bool)
    ensures IsSubsequence(SelectPaths(scheme, paths, url, keep), SelectPaths(scheme, paths, url, KeepAll()))
    decreases |paths|
  {
    if paths != [] {
      var init := DropLast(paths);
      SelectPathsSubsequence(scheme, init, url, keep);
      var u := url(scheme, Last(paths));
      var kept := SelectPaths(scheme, init, url, keep);
      var all := SelectPaths(scheme, init, url, KeepAll());
      if keep(scheme, u) {
        SubsequenceBoth(kept, all, u);
      } else {
        assert kept + [] == kept;
        SubsequenceExtend(kept, all, u);
      }
    }
  }

  lemma {:induction false} SelectSchemesSubsequence(schemes: seq<string>, paths: seq<string>, url: (string, string) -> string,
                                                    keep: (string, string) -> bool)
    ensures IsSubsequence(SelectSchemes(schemes, paths, url, keep), SelectSchemes(schemes, paths, url, KeepAll()))
    decreases |schemes|
  {
    if schemes != [] {
      var init := DropLast(schemes);
      SelectSchemesSubsequence(init, paths, url, keep);
      SelectPathsSubsequence(Last(schemes), paths, url, keep);
      SubsequenceConcat(SelectSchemes(init, paths, url, keep), SelectSchemes(init, paths, url, KeepAll()),
                        SelectPaths(Last(schemes), paths, url, keep), SelectPaths(Last(schemes), paths, url, KeepAll()));
    }
  }

  /** The result keeps the order in which URLs are tried: it is a subsequence of the candidates. */
  lemma ValidUrlsInTryOrder(ip: string, port: int, head: string -> Utils.HttpReply,
                            connect: (string, int) -> Outcome<int>)
    ensures IsSubsequence(ValidUrls(ip, port, head, connect), CandidateUrls(ip, port))
  {
    SelectSchemesSubsequence(Schemes(port), STREAMING_PATHS, UrlOn(ip, port), KeepAccepted(ip, port, head, connect));
  }

  lemma StreamingPathsDistinct()
    ensures NoDups(STREAMING_PATHS)
  {
  }

  /** Different paths give different URLs under `scheme`. */
  predicate PathsApart(scheme: string, paths: seq<string>, url: (string, string) -> string) {
    forall j, k | 0 <= j < k < |paths| :: url(scheme, paths[j]) != url(scheme, paths[k])
  }

  /** No URL under `s1` equals one under `s2`. */
  predicate SchemesApart(s1: string, s2: string, paths: seq<string>, url: (string, string) -> string) {
    forall j, k | 0 <= j < |paths| && 0 <= k < |paths| :: url(s1, paths[j]) != url(s2, paths[k])
  }

  lemma {:induction false} SelectPathsNoDups(scheme: string, paths: seq<string>, url: (string, string) -> string,
                                             keep: (string, string) -> bool)
    requires PathsApart(scheme, paths, url)
    ensures NoDups(SelectPaths(scheme, paths, url, keep))
    decreases |paths|
  {
    if paths != [] {
      var init := DropLast(paths);
      assert forall j | 0 <= j < |init| :: init[j] == paths[j];
      SelectPathsNoDups(scheme, init, url, keep);
      var u := url(scheme, Last(paths));
      var prev := SelectPaths(scheme, init, url, keep);
      if keep(scheme, u) {
        forall a | 0 <= a < |prev|
          ensures prev[a] != u
        {
          SelectPathsMembers(scheme, init, url, keep, prev[a]);
          var j :| 0 <= j < |init| && prev[a] == url(scheme, init[j]) && keep(scheme, prev[a]);
          assert url(scheme, paths[j]) != url(scheme, paths[|paths| - 1]);
        }
        NoDupsConcat(prev, [u]);
      } else {
        assert prev + [] == prev;
      }
    }
  }

  lemma {:induction false} SelectSchemesNoDups(schemes: seq<string>, paths: seq<string>, url: (string, string) -> string,
                                               keep: (string, string) -> bool)
    requires forall i | 0 <= i < |schemes| :: PathsApart(schemes[i], paths, url)
    requires forall i1, i2 | 0 <= i1 < i2 < |schemes| :: SchemesApart(schemes[i1], schemes[i2], paths, url)
    ensures NoDups(SelectSchemes(schemes, paths, url, keep))
    decreases |schemes|
  {
    if schemes != [] {
      var init := DropLast(schemes);
      var last := Last(schemes);
      assert forall i | 0 <= i < |init| :: init[i] == schemes[i];
      SelectSchemesNoDups(init, paths, url, keep);
      SelectPathsNoDups(last, paths, url, keep);
      var prev := SelectSchemes(init, paths, url, keep);
      var next := SelectPaths(last, paths, url, keep);
      forall a, b | 0 <= a < |prev| && 0 <= b < |next|
        ensures prev[a] != next[b]
      {
        SelectSchemesMembers(init, paths, url, keep, prev[a]);
        SelectPathsMembers(last, paths, url, keep, next[b]);
        var i, j :| 0 <= i < |init| && 0 <= j < |paths| && prev[a] == url(init[i], paths[j]) && keep(init[i], prev[a]);
        var k :| 0 <= k < |paths| && next[b] == url(last, paths[k]) && keep(last, next[b]);
        assert SchemesApart(schemes[i], schemes[|schemes| - 1], paths, url);
      }
      NoDupsConcat(prev, next);
    }
  }

  /** On one host and port, different schemes or different paths give different URLs. */
  lemma UrlOnApart(ip: string, port: int)
    ensures forall i | 0 <= i < |Schemes(port)| :: PathsApart(Schemes(port)[i], STREAMING_PATHS, UrlOn(ip, port))
    ensures forall i1, i2 | 0 <= i1 < i2 < |Schemes(port)| ::
      SchemesApart(Schemes(port)[i1], Schemes(port)[i2], STREAMING_PATHS, UrlOn(ip, port))
  {
    var schemes := Schemes(port);
    StreamingPathsDistinct();
    forall i, j, k | 0 <= i < |schemes| && 0 <= j < k < |STREAMING_PATHS|
      ensures UrlOn(ip, port)(schemes[i], STREAMING_PATHS[j]) != UrlOn(ip, port)(schemes[i], STREAMING_PATHS[k])
    {
      EndpointPathDistinct(schemes[i], ip, port, STREAMING_PATHS[j], STREAMING_PATHS[k]);
    }
    forall i1, i2, j, k | 0 <= i1 < i2 < |schemes| && 0 <= j < |STREAMING_PATHS| && 0 <= k < |STREAMING_PATHS|
      ensures UrlOn(ip, port)(schemes[i1], STREAMING_PATHS[j]) != UrlOn(ip, port)(schemes[i2], STREAMING_PATHS[k])
    {
      assert ':' !in schemes[i1] && ':' !in schemes[i2] && schemes[i1] != schemes[i2];
      EndpointSchemeDistinct(schemes[i1], ip, port, STREAMING_PATHS[j], schemes[i2], ip, port, STREAMING_PATHS[k]);
    }
  }

  /** No URL is returned twice. */
  lemma ValidUrlsNoDups(ip: string, port: int, head: string -> Utils.HttpReply,
                        connect: (string, int) -> Outcome<int>)
    ensures NoDups(ValidUrls(ip, port, head, connect))
  {
    UrlOnApart(ip, port);
    SelectSchemesNoDups(Schemes(port), STREAMING_PATHS, UrlOn(ip, port), KeepAccepted(ip, port, head, connect));
  }

  /** On port 443 every returned URL is an https URL. */
  lemma Port443OnlyHttps(ip: string, head: string -> Utils.HttpReply, connect: (string, int) -> Outcome<int>)
    ensures forall u | u in ValidUrls(ip, 443, head, connect) :: IsPrefix("https://", u)
  {
    assert Schemes(443) == ["https"];
    OneSchemePrefix("https", STREAMING_PATHS, ip, 443, head, connect);
  }

  /** With one scheme, every returned URL starts with that scheme. */
  lemma OneSchemePrefix(scheme: string, paths: seq<string>, ip: string, port: int,
                        head: string -> Utils.HttpReply, connect: (string, int) -> Outcome<int>)
    ensures forall u | u in SelectSchemes([scheme], paths, UrlOn(ip, port), KeepAccepted(ip, port, head, connect)) ::
      IsPrefix(scheme + "://", u)
  {
    forall u | u in SelectSchemes([scheme], paths, UrlOn(ip, port), KeepAccepted(ip, port, head, connect))
      ensures IsPrefix(scheme + "://", u)
    {
      AcceptedMembers([scheme], paths, ip, port, head, connect, u);
      var i, j :| 0 <= i < 1 && 0 <= j < |paths| &&
                  u == EndpointUrl([scheme][i], ip, port, paths[j]) && Accepted([scheme][i], ip, port, u, head, connect);
      EndpointUrlScheme(scheme, ip, port, paths[j]);
    }
  }

  /**
   * The rtsp probe connects to the same host and port whatever the path, so
   * on any port but 443 either every rtsp URL is returned or none is.
   */
  lemma RtspAllOrNothing(ip: string, port: int, head: string -> Utils.HttpReply,
                         connect: (string, int) -> Outcome<int>, j: int)
    requires port != 443 && 0 <= j < |STREAMING_PATHS|
    ensures EndpointUrl("rtsp", ip, port, STREAMING_PATHS[j]) in ValidUrls(ip, port, head, connect)
            <==> connect(ip, port) == Returned(0)
  {
    assert Schemes(port)[2] == "rtsp";
    RtspMember(Schemes(port), STREAMING_PATHS, ip, port, head, connect, j);
  }

  /** `RtspAllOrNothing` for any scheme list holding "rtsp" and any path list. */
  lemma RtspMember(schemes: seq<string>, paths: seq<string>, ip: string, port: int,
                   head: string -> Utils.HttpReply, connect: (string, int) -> Outcome<int>, j: int)
    requires "rtsp" in schemes && 0 <= j < |paths|
    ensures EndpointUrl("rtsp", ip, port, paths[j]) in SelectSchemes(schemes, paths, UrlOn(ip, port), KeepAccepted(ip, port, head, connect))
            <==> connect(ip, port) == Returned(0)
  {
    var u := EndpointUrl("rtsp", ip, port, paths[j]);
    AcceptedMembers(schemes, paths, ip, port, head, connect, u);
    if u in SelectSchemes(schemes, paths, UrlOn(ip, port), KeepAccepted(ip, port, head, connect)) {
      var i, j' :| 0 <= i < |schemes| && 0 <= j' < |paths| &&
                   u == EndpointUrl(schemes[i], ip, port, paths[j']) && Accepted(schemes[i], ip, port, u, head, connect);
      if schemes[i] != "rtsp" {
        assert schemes[i] == "http" || schemes[i] == "https";
        EndpointSchemeDistinct(schemes[i], ip, port, paths[j'], "rtsp", ip, port, paths[j]);
      }
    }
    if connect(ip, port) == Returned(0) {
      var i :| 0 <= i < |schemes| && schemes[i] == "rtsp";
      assert Accepted(schemes[i], ip, port, u, head, connect);
    }
  }

  /** Fragments `check_content_type` looks for in the lower-cased content type. */
  const MEDIA_TYPES: seq<string> := ["video", "application/vnd.apple.mpegurl", "application/dash+xml"]

  /**
   * `check_content_type` over the outcome of its HEAD request: the status is
   * not looked at, a missing header reads as '', and any exception is False.
   * The test is at least as strict as the one `probe_url` applies: every
   * accepted content type also passes there, and with status 200 the probe
   * answers True.
   */
  predicate CheckContentType(reply: Utils.HttpReply)
    ensures CheckContentType(reply) ==> reply.Reply? && Utils.MentionsMedia(reply.contentType.GetOr(""))
    ensures CheckContentType(reply) && reply.Reply? && reply.status == 200 ==> Utils.ProbeUrl(reply) == Returned(true)
  {
    reply.Reply? &&
    (FragmentsMentionMedia(reply.contentType.GetOr(""));
     exists k | 0 <= k < |MEDIA_TYPES| :: Contains(Lower(reply.contentType.GetOr("")), MEDIA_TYPES[k]))
  }

  /** A piece of a piece is a piece. */
  lemma ContainsPrefixOfPiece(s: string, p: string, q: string)
    requires Contains(s, p) && IsPrefix(q, p)
    ensures Contains(s, q)
  {
    var i :| 0 <= i <= |s| - |p| && OccursAt(s, p, i);
    assert s[i..i + |q|] == p[..|q|];
    assert OccursAt(s, q, i);
  }

  /** The two manifest fragments of `MEDIA_TYPES` start with "application". */
  lemma ApplicationFragments()
    ensures IsPrefix("application", MEDIA_TYPES[1]) && IsPrefix("application", MEDIA_TYPES[2])
  {
    assert MEDIA_TYPES[1][..11] == "application";
    assert MEDIA_TYPES[2][..11] == "application";
  }

  /** Each fragment of `MEDIA_TYPES` contains one of `probe_url`'s fragments. */
  lemma FragmentsMentionMedia(contentType: string)
    ensures (exists k | 0 <= k < |MEDIA_TYPES| :: Contains(Lower(contentType), MEDIA_TYPES[k])) ==>
      Utils.MentionsMedia(contentType)
  {
    var lowered := Lower(contentType);
    if exists k | 0 <= k < |MEDIA_TYPES| :: Contains(lowered, MEDIA_TYPES[k]) {
      var k :| 0 <= k < |MEDIA_TYPES| && Contains(lowered, MEDIA_TYPES[k]);
      if k == 0 {
        assert Utils.PROBE_MEDIA_TYPES[0] == "video";
      } else {
        ApplicationFragments();
        ContainsPrefixOfPiece(lowered, MEDIA_TYPES[k], "application");
        assert Utils.PROBE_MEDIA_TYPES[3] == "application";
      }
    }
  }
}
