# streamhunter core, modelled in Dafny

streamhunter looks for video streams on the local /24 network. This
project models its core:

- **Scanner.** `StreamScanner` checks a fixed table of ports on every host.
  For each open rtsp, hls or rtmp port it starts a protocol-specific prober:
  RTSP `OPTIONS`, HLS manifest fetches, or a plain RTMP port check. An open
  port of any other protocol (http, https, ws, wss) ends the host's scan: its
  branch hands the future of `asyncio.gather` to `asyncio.create_task`,
  which raises TypeError, and the host counts one failure. Otherwise the
  URLs the probers report go into one result set. Scans and failures are
  counted as it goes.
- **Protocols.** The catalogue behind those probers: ports, URL patterns,
  media content types, protocol headers and payload signatures.
- **Monitor.** `StreamMonitor` re-probes known streams in cycles. It keeps a
  registry of active streams, saves each record to two JSON files
  (insert-if-absent) and evicts entries that have been silent for more than
  five minutes.
- **URL validator.** `URLValidator` tries every scheme and streaming path on
  one host and port.
- **Utilities.** Port checks, URL probes, and writing the sorted result list
  to a text file.

The model never touches the network, a clock or a file. Instead, each
exchange is a function given as a parameter:

- a port-check outcome (in `scan_host`, one per host, protocol row and port);
- an RTSP reply per attempt;
- a GET reply per attempt;
- a HEAD reply;
- a TCP connect result;
- the clock reading of each probe.

What a prober or a whole scan does is a pure function of those replies.
Each imperative part of the source is a method proved equal to that
function:

- the retry loops;
- the candidate loops of each prober;
- the port loop and the gathering loop of `scan_host`;
- `scan_network`;
- the monitor cycle, and its probe and sweep loops.

The lemmas then state what the source promises about those functions.

The layout:

| file | what it models |
|---|---|
| `common.dfy` | shared types: `Option`, `Outcome` (a value, or an exception that escapes), bytes |
| `text.dfy` | substring search, ASCII lower-casing, and the `scheme://host:port/path` URLs the probers build |
| `seqs.dfy` | sequence vocabulary: no duplicates, subsequences, flattening, unions |
| `protocols.dfy` | `protocols.py` |
| `utils.dfy` | `check_port`, `probe_url` and `save_streams` of `utils.py` |
| `url_validator.dfy` | `URLValidator` |
| `scanner.dfy` | `StreamScanner` |
| `stream_monitor.dfy` | `StreamMonitor` |

## Model

| member | source | states |
|---|---|---|
| Protocols.HeaderFor | protocols.py:53-61 | every protocol with a listed header has a non-empty one |
| Protocols.ValidateProtocolResponse | protocols.py:87-90 | empty data is never accepted, whatever the protocol |
| Protocols.HeaderPrefixAccepted | protocols.py:92-94 | data that begins with the protocol's header is accepted |
| Protocols.ConnectionJudgedProtocols | protocols.py:104-107 | for rtmp and ws, data is accepted iff it is non-empty |
| Protocols.DashAcceptance | protocols.py:102-103 | a dash response passes iff it starts with `<?xml`, or contains it together with `MPD` or a case-insensitive `manifest` |
| Protocols.UnlistedTagUsesSignatureWindow | protocols.py:112-117 | a tag with no header and no branch passes iff some container signature lies wholly within the first 1024 bytes |
| Protocols.VideoTagIsSignatureTest | protocols.py:87-117 | the monitor's `'video'` check is exactly the container-signature test |
| Protocols.VideoContentTypeIgnoresCase | protocols.py:82-85 | the content-type test gives the same answer for a content type and its lower-cased form |
| Protocols.IsVideoContentType | protocols.py:82-85 | decides whether some table entry occurs in the lower-cased content type; every content type containing `video/` is a video type |
| Protocols.MixedCaseEntryNeverMatches | protocols.py:45 | the mixed-case table entry `application/x-mpegURL` can never match a lower-cased content type |
| Protocols.FirstMatchIsFirst | protocols.py:74-80 | a pattern search returns the first matching key, or `'unknown'` iff no key matches; "some pattern matches" holds iff some key matches |
| Protocols.ClassifyUrl | protocols.py:74-80 | decides the protocol of a URL: `'unknown'`, or a key of the pattern table whose pattern matches the URL |
| Protocols.ClassifyUrlFirstMatch | protocols.py:74-80 | `classify_url` is `'unknown'` iff no pattern matches; otherwise it is the first matching key in table order |
| Protocols.IsStreamingUrl | protocols.py:63-68 | decides whether some pattern matches: `is_streaming_url(u)` iff `classify_url(u) != 'unknown'` |
| Protocols.ProtocolPorts | protocols.py:70-72 | `get_protocol_ports` lists each port of the table exactly once, and no other port |
| Utils.CheckPort | utils.py:17-30 | True iff the connection opened; an exception other than a timeout, a refusal or an OS error escapes; every other outcome is False |
| Utils.ProbeUrl | utils.py:32-45 | True iff status 200 and the lower-cased content type (`''` when absent) mentions video, stream, mpegurl or application; an exception other than a client error or a timeout escapes |
| Utils.SortedListIsSortedSet | utils.py:74 | `sorted(streams)` lists every stream exactly once, in strictly ascending order |
| Utils.SaveStreams | utils.py:70-79 | the text written is one line per stream, in sorted order |
| Utils.RenderSplitRoundTrip | utils.py:74-75 | splitting the written lines on newlines gives the lines back, followed by one empty piece |
| Utils.SaveStreamsRoundTrip | utils.py:70-79 | the written file reads back as the sorted streams; it has one line per stream, and an empty set writes empty text |
| UrlValidator.Schemes | url_validator.py:21 | port 443 is tried as https only; any other port is tried as http, https and rtsp |
| UrlValidator.TryCandidate | url_validator.py:26-40 | a candidate is kept iff its HEAD answers 200 (http, https) or the TCP connect returns 0 (rtsp); an exception drops it |
| UrlValidator.TryPaths | url_validator.py:24-40 | the paths loop keeps the accepted URLs of one scheme, in path order |
| UrlValidator.ValidateUrl | url_validator.py:19-42 | `validate_url` returns the accepted candidates, scheme-major and path-minor |
| UrlValidator.ValidUrlsMembers | url_validator.py:19-42 | a URL is returned iff it is `scheme://ip:port/path` for a tried scheme and a listed path, and its probe accepted it |
| UrlValidator.ValidUrlsInTryOrder | url_validator.py:23-31 | the result is a subsequence of the candidates, in the order they are tried |
| UrlValidator.StreamingPathsDistinct | url_validator.py:8-17 | the path list has no repeats |
| UrlValidator.ValidUrlsNoDups | url_validator.py:19-42 | no URL is returned twice |
| UrlValidator.Port443OnlyHttps | url_validator.py:21 | on port 443 every returned URL is an https URL |
| UrlValidator.RtspAllOrNothing | url_validator.py:31-37 | on any port but 443, an rtsp URL is returned iff the connect to the host and port returns 0; with one connect answer per host and port, all of them are returned or none |
| UrlValidator.CheckContentType | url_validator.py:44-51 | decides whether the HEAD reply's lower-cased content type holds a media fragment, an exception giving False; an accepted reply also passes `probe_url`'s content test, and with status 200 the probe answers True |
| Scanner.RetryLoop | scanner.py:44-61 | the attempt loop ends at the first hit (True) or escaping exception, and answers False after three misses |
| Scanner.RetryOutcome | scanner.py:44-64 | a candidate is confirmed iff some attempt hits after misses only; it is rejected iff all three attempts miss |
| Scanner.CollectRaised | scanner.py:42-65 | a prober raises iff the verdict on one of its candidates raises |
| Scanner.CollectReturned | scanner.py:42-65 | a prober that returns lists exactly the candidates it confirmed, in candidate order |
| Scanner.CollectConcat | scanner.py:77-79 | running the candidate loop over two runs of candidates concatenates their results, and an exception in either escapes |
| Scanner.RtspPathsDistinct | scanner.py:35-39 | the RTSP path list has no repeats |
| Scanner.RtspUrlsDistinct | scanner.py:42-43 | the RTSP candidate URLs are pairwise different |
| Scanner.RtspFoundSpec | scanner.py:32-65 | `check_rtsp` returns its candidates in order and without repeats; a URL is returned iff an attempt reads a 200 status line after misses only |
| Scanner.HlsPathsDistinct | scanner.py:70-74 | the HLS path list has no repeats |
| Scanner.DashPathsDistinct | scanner.py:98-101 | the DASH path list has no repeats |
| Scanner.UrlGridDistinct | scanner.py:77-80 | distinct paths and distinct slash-free file names give pairwise different `http://ip:port/path/file` URLs |
| Scanner.ManifestUrlsDistinct | scanner.py:104-107 | every manifest candidate URL of a prober is tried once |
| Scanner.ManifestFoundSpec | scanner.py:67-93 | `check_hls` and `check_dash` return candidates path-major and file-minor, without repeats; a URL is returned iff an attempt gets status 200 with the marker in the body, after misses only |
| Scanner.RtmpFoundSpec | scanner.py:122-135 | `check_rtmp` returns all nine URLs iff its port check succeeds, and nothing iff the check fails quietly; the URLs are distinct |
| Scanner.ScheduleSpec | scanner.py:143-160 | when the port loop completes, the started probers are exactly the table pairs whose port check answered True, in table order, and each has an rtsp, hls or rtmp prober |
| Scanner.ScheduleRaisedIff | scanner.py:143-160 | the port loop raises iff some port check raises or some port of the http, https, ws or wss rows is open |
| Scanner.OpenHttpPortAbortsHost | scanner.py:143-178 | an open port of the HTTP branch makes `create_task` raise: the host adds nothing and counts one failure |
| Scanner.GatheredMembers | scanner.py:162-172 | a host's URLs are exactly the URLs of the probers that returned; the failures counted never exceed the probers started |
| Scanner.AllPortsClosed | scanner.py:137-181 | when every port check answers False, the host adds nothing and counts no failure |
| Scanner.DashNeverScheduled | scanner.py:143-154 | no port of the table belongs to `'dash'`, so the DASH prober is never started |
| Scanner.NetworkItemsMembers | scanner.py:189-203 | a URL is found iff some host contributes it |
| Scanner.NetworkItemsOrderFree | scanner.py:198-200 | the result set does not depend on the order in which hosts finish |
| Scanner.StreamScanner.constructor | scanner.py:14-22 | the result set is empty and every counter is 0 |
| Scanner.StreamScanner.CheckRtsp | scanner.py:32-65 | the RTSP loop computes `check_rtsp`'s result |
| Scanner.StreamScanner.CheckFiles | scanner.py:78-92 | the file loop under one path collects the confirmed URLs of that path |
| Scanner.StreamScanner.CheckManifests | scanner.py:77-93 | the path loop collects the confirmed URLs of the whole grid |
| Scanner.StreamScanner.CheckHls | scanner.py:67-93 | computes `check_hls`'s result |
| Scanner.StreamScanner.CheckDash | scanner.py:95-120 | computes `check_dash`'s result |
| Scanner.StreamScanner.CheckRtmp | scanner.py:122-135 | computes `check_rtmp`'s result |
| Scanner.StreamScanner.CheckRow | scanner.py:144-160 | the port loop of one protocol keeps the open pairs; it raises when a check raises or when the protocol has no prober and a port is open |
| Scanner.StreamScanner.OpenPorts | scanner.py:143-160 | the port loops keep the open pairs in table order, or raise as soon as one row raises |
| Scanner.StreamScanner.RunProbers | scanner.py:162-172 | each started rtsp, hls or rtmp prober's returned list is extended into the host's URLs; each exception counts one failure |
| Scanner.StreamScanner.ScanHost | scanner.py:137-181 | one scan is counted; the host's URLs are added and its failures counted (a raising port loop, including the TypeError of an open HTTP-branch port, counts one and adds nothing); `successful_scans` never moves; with a total of 0 the progress line raises |
| Scanner.StreamScanner.ScanNetwork | scanner.py:189-203 | an empty host list sets the total to 0 and returns nothing; otherwise every host's URLs are found, one scan is counted per host, and the result set is returned |
| StreamMonitor.Probe | stream_monitor.py:19-41 | a record is stored iff the status is 200, the content type is a video type and a container signature lies within the first 1024 bytes of the 8192-byte chunk; the record carries the url, the content type, the chunk length (the body's length, at most 8192) and the clock reading |
| StreamMonitor.Load | stream_monitor.py:51-55 | a missing or undecodable file reads as an empty list; a file without a stream list aborts |
| StreamMonitor.Merge | stream_monitor.py:57-60 | the record is appended iff no entry has its url; old entries are kept in order; unique urls stay unique |
| StreamMonitor.SaveSpec | stream_monitor.py:43-80 | each file keeps its entries and gains the record iff its url was absent; a file without a stream list aborts the rest of the save; unique urls stay unique |
| StreamMonitor.Remove | stream_monitor.py:102 | deleting a key removes exactly that key and keeps the others unique |
| StreamMonitor.StoreWellFormed | stream_monitor.py:37 | storing a record keeps every key listed once and filed under its own url |
| StreamMonitor.MonitorStepSpec | stream_monitor.py:19-41 | one probe adds or replaces exactly its own url when accepted, and leaves every other entry alone |
| StreamMonitor.MonitorAllSpec | stream_monitor.py:91-93 | after a cycle's probes, a url is registered iff it was before or its probe was accepted; an accepted probe's record replaces the entry |
| StreamMonitor.SweepAllSpec | stream_monitor.py:96-102 | the sweep deletes exactly the listed stale entries; the files receive those records, marked inactive, in key order |
| StreamMonitor.SweepWellFormed | stream_monitor.py:97-102 | the sweep keeps the registry well formed |
| StreamMonitor.SweepEvictsExactlyStale | stream_monitor.py:96-102 | after a sweep of the whole registry, a url remains iff it is not stale, with its record untouched |
| StreamMonitor.StaleBoundary | stream_monitor.py:99 | 301 seconds of silence evict; 300 and 299 keep |
| StreamMonitor.StaleTestWrapsDaily | stream_monitor.py:99 | only the seconds field of the delta is compared: a day and a second keeps, five seconds in the future evicts |
| StreamMonitor.FreshAcceptanceSurvives | stream_monitor.py:86-102 | a url accepted in a cycle survives that cycle's sweep when the sweep comes at most 300 seconds later |
| StreamMonitor.SeedsAfter | stream_monitor.py:88-89 | a non-empty seed set grows by the registry's keys; an empty one stays empty |
| StreamMonitor.EvictedStaysSeeded | stream_monitor.py:88-89 | once seeded, every url that was registered stays a target in later cycles |
| StreamMonitor.StreamMonitor.constructor | stream_monitor.py:14-17 | empty registry, not running |
| StreamMonitor.StreamMonitor.SaveStreamInfo | stream_monitor.py:43-80 | the files afterwards are the insert-if-absent merge of the record |
| StreamMonitor.StreamMonitor.MonitorStream | stream_monitor.py:19-41 | an accepted response is stored and saved; anything else changes nothing; the registry stays well formed |
| StreamMonitor.StreamMonitor.EvictIfStale | stream_monitor.py:98-102 | a stale entry is saved inactive and deleted; a fresh one stays |
| StreamMonitor.StreamMonitor.Sweep | stream_monitor.py:96-102 | the cleanup loop over a snapshot of the keys is the sweep |
| StreamMonitor.StreamMonitor.MonitorCycle | stream_monitor.py:86-104 | a running monitor probes the targets and then sweeps; a stopped one changes nothing |
| StreamMonitor.StreamMonitor.StartMonitoring | stream_monitor.py:82-104 | raises the flag and runs a first cycle |
| StreamMonitor.StreamMonitor.StopMonitoring | stream_monitor.py:109-111 | lowers the flag |

## Left out

- Sockets, HTTP sessions, timeouts, sleeps and semaphores: every network outcome is a parameter. The timeouts are floats; they only bound the waits that the oracles already decide, so `get_protocol_timeout` and the `protocol_timeouts` table are not modelled.
- Concurrency:
  - The probers of one host, and the hosts of one network scan, run one after another. Probers touch no shared state, so the counters and the result set end up the same.
  - `NetworkItemsOrderFree` shows that the order in which hosts finish does not matter to the result set.
  - In the monitor, a cycle's probes run in a `schedule` order given as a parameter: the order in which the gathered tasks finish.
- Regular expressions: `STREAMING_PATTERNS` is an oracle `matches(key, url)`. Only the first-match and any-match logic around it is modelled.
- `str.lower()` is ASCII-only. Non-ASCII case mappings are not modelled.
- `get_local_ip` and `get_network_range`: the host list is a parameter of `ScanNetwork`. network_utils.py and main.py are not part of this model.
- Logging and printing. The progress line of `_print_progress` is not modelled, except for its division by `total_hosts`, which raises when the total is 0.
- Files:
  - A JSON file is a `Document` value: missing, undecodable, without a `streams` list, or a list of records. Encoding, indentation and the write itself are not modelled.
  - A write that fails is not modelled, and neither is the `IOError` re-raise in `save_streams`.
  - A record with extra or missing keys is not modelled.
- `stream_history` (a set that is never used) is not modelled.
- Time:
  - Timestamps are whole seconds, not ISO strings.
  - `monitor_stream` reads the clock twice. The model reads it once, so `first_seen == last_active`.
- The monitoring loop:
  - It runs forever, and the model describes one cycle at a time; `asyncio.sleep(10)` separates cycles.
  - Its `except` handler is not reachable in the model, because a record's timestamp always parses.
- The chunk read: `read(8192)` may return fewer bytes than are available. The model takes the first `min(8192, len(body))` bytes.
- The HTTP branch of `scan_host`: before `create_task` raises, `asyncio.gather` has already wrapped the six `probe_url` calls into tasks, and probers started for earlier ports are running too. They run on detached, and their answers are never read; the model drops them, as the host's result does.
- Closing the RTSP writer: an error raised there, or by `wait_closed`, is not modelled.
- Scanner.StreamScanner.ScanNetwork: the returned set is the scanner's own set, so later scans alias it. The model returns a copy of the value.
- Protocols.ProtocolPorts: `get_protocol_ports` goes through a `set`, whose order is unspecified. The model keeps the first occurrences and proves only the membership and the uniqueness.
- UrlValidator.ValidateUrl: an rtsp probe's connect result does not depend on the path, so the model uses one answer per `(ip, port)`. The socket is not always closed when connect raises, and that is not modelled.
