/**
 * stream_monitor.py: the registry of active streams, the merge of a record
 * into the two JSON documents, and one cycle of the monitoring loop.
 * Time is a whole number of seconds read from a clock given as a
 * parameter; a document is what `json.load` finds in
 * `active_streams.json` or `stream_history.json`.
 */
module StreamMonitor {
  import opened Common
  import opened Text
  import opened Seqs
  import Protocols

  /** Bytes read from an accepted response to judge its content. */
  const CHUNK_SIZE: nat := 8192
  /** A record last active longer ago than this is evicted by the sweep. */
  const STALE_SECONDS: int := 300
  const SECONDS_PER_DAY: int := 86400

  /** A `stream_info` dictionary; `first_seen` and `last_active` as seconds. */
  datatype Record = Record(url: string, contentType: string, firstSeen: int, lastActive: int, size: nat, active: bool)

  /** What `session.get(url)` and the chunk read did: the response, or an exception. */
  datatype GetOutcome =
    | Response(status: int, contentType: Option<string>, body: seq<byte>)
    | Failed

  // ---------------------------------------------------------------------
  // monitor_stream: acceptance

  /**
   * The record `monitor_stream` stores for `url`: present iff the status is
   * 200, the content type (empty when absent) is a video type, and a
   * container signature lies within the first 1024 bytes of the chunk.
   * Its url is the key, its size the chunk's length, and both timestamps
   * are the clock reading.
   */
  function Probe(url: string, reply: GetOutcome, now: int): (r: Option<Record>)
    ensures r.Some? <==>
      reply.Response? && reply.status == 200 &&
      Protocols.IsVideoContentType(reply.contentType.GetOr("")) &&
      Protocols.HasBinarySignature(Take(reply.body, CHUNK_SIZE))
    ensures r.Some? ==>
      r.value.url == url && r.value.contentType == reply.contentType.GetOr("") &&
      r.value.size == (if |reply.body| <= CHUNK_SIZE then |reply.body| else CHUNK_SIZE) && r.value.active &&
      r.value.firstSeen == now && r.value.lastActive == now
  {
    match reply
    case Failed => None
    case Response(status, contentType, body) =>
      var ct := contentType.GetOr("");
      var chunk := Take(body, CHUNK_SIZE);
      Protocols.VideoTagIsSignatureTest(chunk);
      if status == 200 && Protocols.IsVideoContentType(ct) && Protocols.ValidateProtocolResponse(chunk, "video") then
        Some(Record(url, ct, now, now, |chunk|, true))
      else
        None
  }

  // ---------------------------------------------------------------------
  // save_stream_info: the documents

  /** One JSON file as `json.load` finds it. */
  datatype Document =
    | Missing                        // FileNotFoundError
    | Corrupt                        // json.JSONDecodeError
    | NoStreamList                   // valid JSON without a `'streams'` list: the lookup raises
    | Streams(records: seq<Record>)

  /** Both files `save_stream_info` touches. */
  datatype Files = Files(active: Document, history: Document)

  /** The stream list read from a document; a missing or undecodable file reads as empty. */
  function Load(d: Document): (r: Option<seq<Record>>)
    ensures r.None? <==> d.NoStreamList?
    ensures d.Streams? ==> r == Some(d.records)
    ensures d.Missing? || d.Corrupt? ==> r == Some([])
  {
    match d
    case Missing => Some([])
    case Corrupt => Some([])
    case NoStreamList => None
    case Streams(records) => Some(records)
  }

  function Urls(rs: seq<Record>): (r: seq<string>)
    ensures |r| == |rs| && forall i | 0 <= i < |rs| :: r[i] == rs[i].url
  {
    seq(|rs|, i requires 0 <= i < |rs| => rs[i].url)
  }

  /** No two entries of the list share a url. */
  predicate UniqueUrls(rs: seq<Record>) {
    NoDups(Urls(rs))
  }

  /** A document whose stream list, if any, has unique urls. */
  predicate DocumentUnique(d: Document) {
    d.Streams? ==> UniqueUrls(d.records)
  }

  /**
   * Insert-if-absent: the record is appended exactly when no entry has its
   * url; existing entries are never changed or reordered, so unique urls
   * stay unique and the url is present afterwards.
   */
  function Merge(rs: seq<Record>, info: Record): (r: seq<Record>)
    ensures |rs| <= |r| <= |rs| + 1 && r[..|rs|] == rs
    ensures |r| == |rs| + 1 <==> info.url !in Urls(rs)
    ensures |r| == |rs| + 1 ==> r[|rs|] == info
    ensures info.url in Urls(r)
    ensures UniqueUrls(rs) ==> UniqueUrls(r)
  {
    if info.url in Urls(rs) then rs
    else
      assert Urls(rs + [info]) == Urls(rs) + [info.url];
      rs + [info]
  }

  /** `save_stream_info(info)`: the files afterwards. */
  function Save(f: Files, info: Record): Files {
    match Load(f.active)
    case None => f
    case Some(rs) =>
      var active := Streams(Merge(rs, info));
      match Load(f.history)
      case None => Files(active, f.history)
      case Some(hs) =>
        if info.url in Urls(hs) then Files(active, f.history)
        else Files(active, Streams(hs + [info]))
  }

  /**
   * A file without a stream list aborts the save: an active file leaves
   * both files as they were, a history file leaves it as it was. Otherwise
   * each file afterwards holds its old entries unchanged, in order, with
   * `info` appended iff its url was absent; so the url is in both lists
   * and unique urls stay unique.
   */
  lemma SaveSpec(f: Files, info: Record)
    ensures f.active.NoStreamList? ==> Save(f, info) == f
    ensures !f.active.NoStreamList? ==> Save(f, info).active == Streams(Merge(Load(f.active).value, info))
    ensures !f.active.NoStreamList? && f.history.NoStreamList? ==> Save(f, info).history == f.history
    ensures !f.active.NoStreamList? && !f.history.NoStreamList? ==>
      Save(f, info).history.Streams? &&
      Save(f, info).history.records == Merge(Load(f.history).value, info) &&
      (info.url in Urls(Load(f.history).value) ==> Save(f, info).history == f.history)
    ensures DocumentUnique(f.active) && DocumentUnique(f.history) ==>
      DocumentUnique(Save(f, info).active) && DocumentUnique(Save(f, info).history)
  {
    match Load(f.active)
    case None =>
    case Some(rs) =>
      match Load(f.history)
      case None =>
      case Some(hs) =>
        var merged := Merge(hs, info);
        if info.url !in Urls(hs) {
          assert merged == hs + [info];
        }
  }

  // ---------------------------------------------------------------------
  // The registry

  /**
   * `active_streams` together with the order its keys were inserted in
   * (the iteration order of a Python dict), and the two files.
   */
  datatype MonitorState = MonitorState(streams: map<string, Record>, order: seq<string>, files: Files)

  /** The order lists every key once, and each record is filed under its own url. */
  ghost predicate WellFormed(s: MonitorState) {
    NoDups(s.order) &&
    (forall u :: u in s.order <==> u in s.streams) &&
    (forall u | u in s.streams :: s.streams[u].url == u)
  }

  /** `order` without `u`: deleting a key from a dict. */
  function Remove(order: seq<string>, u: string): (r: seq<string>)
    ensures forall x :: x in r <==> x in order && x != u
    ensures NoDups(order) ==> NoDups(r)
    decreases |order|
  {
    if order == [] then []
    else
      var init := Remove(DropLast(order), u);
      assert forall x :: x in order <==> x in DropLast(order) || x == Last(order) by {
        assert order == DropLast(order) + [Last(order)];
      }
      if Last(order) == u then init
      else
        assert NoDups(order) ==> Last(order) !in DropLast(order) by {
          if NoDups(order) { NoDupsDropLast(order); }
        }
        init + [Last(order)]
  }

  /** `active_streams[url] = info`: a new key goes last, an existing key keeps its place. */
  function Store(s: MonitorState, info: Record): MonitorState {
    MonitorState(
      s.streams[info.url := info],
      if info.url in s.streams then s.order else s.order + [info.url],
      Save(s.files, info))
  }

  /** `monitor_stream(url)`: an accepted response is stored and saved; anything else changes nothing. */
  function MonitorStep(s: MonitorState, url: string, reply: GetOutcome, now: int): MonitorState {
    match Probe(url, reply, now)
    case None => s
    case Some(info) => Store(s, info)
  }

  /** The probes of one cycle, in the order they complete; `clock(u)` is the time probe `u` reads. */
  function MonitorAll(s: MonitorState, schedule: seq<string>, replies: string -> GetOutcome, clock: string -> int): MonitorState
    decreases |schedule|
  {
    if schedule == [] then s
    else
      var u := Last(schedule);
      MonitorStep(MonitorAll(s, DropLast(schedule), replies, clock), u, replies(u), clock(u))
  }

  /**
   * `(now - last_active).seconds > 300`. `timedelta.seconds` is the
   * seconds field of the normalised delta, which lies in [0, 86400): the
   * elapsed time modulo a day, also for a negative delta.
   */
  predicate IsStale(info: Record, now: int) {
    (now - info.lastActive) % SECONDS_PER_DAY > STALE_SECONDS
  }

  /** One step of the sweep: a stale entry is marked inactive, saved and deleted. */
  function Evict(s: MonitorState, url: string, now: int): MonitorState {
    if url in s.streams && IsStale(s.streams[url], now) then
      MonitorState(s.streams - {url}, Remove(s.order, url), Save(s.files, s.streams[url].(active := false)))
    else s
  }

  /** The sweep over a snapshot `keys` of the registry's keys. */
  function SweepAll(s: MonitorState, keys: seq<string>, now: int): MonitorState
    decreases |keys|
  {
    if keys == [] then s else Evict(SweepAll(s, DropLast(keys), now), Last(keys), now)
  }

  /** One pass of the `while` body: probe the schedule, then sweep the keys as they are after the probes. */
  function Cycle(s: MonitorState, schedule: seq<string>, replies: string -> GetOutcome, clock: string -> int, now: int): MonitorState {
    var probed := MonitorAll(s, schedule, replies, clock);
    SweepAll(probed, probed.order, now)
  }

  /** The entries of `m` that a sweep over `keys` keeps. */
  function Kept(m: map<string, Record>, keys: seq<string>, now: int): map<string, Record> {
    map u | u in m && !(u in keys && IsStale(m[u], now)) :: m[u]
  }

  /** The records a sweep over `keys` saves: each stale entry, marked inactive, in key order. */
  function Evicted(m: map<string, Record>, keys: seq<string>, now: int): seq<Record>
    decreases |keys|
  {
    if keys == [] then []
    else
      var u := Last(keys);
      Evicted(m, DropLast(keys), now) + (if u in m && IsStale(m[u], now) then [m[u].(active := false)] else [])
  }

  /** Saving several records one after the other. */
  function SaveAll(f: Files, infos: seq<Record>): Files
    decreases |infos|
  {
    if infos == [] then f else Save(SaveAll(f, DropLast(infos)), Last(infos))
  }

  lemma SaveAllSnoc(f: Files, infos: seq<Record>, more: seq<Record>)
    requires |more| <= 1
    ensures SaveAll(f, infos + more) == if more == [] then SaveAll(f, infos) else Save(SaveAll(f, infos), more[0])
  {
    if more == [] {
      assert infos + more == infos;
    } else {
      assert DropLast(infos + more) == infos;
    }
  }

  /**
   * A sweep over duplicate-free keys deletes exactly the listed entries
   * that are stale and leaves every other entry as it was; the files
   * receive the deleted records, marked inactive, in key order.
   */
  lemma {:induction false} SweepAllSpec(s: MonitorState, keys: seq<string>, now: int)
    requires NoDups(keys)
    ensures SweepAll(s, keys, now).streams == Kept(s.streams, keys, now)
    ensures SweepAll(s, keys, now).files == SaveAll(s.files, Evicted(s.streams, keys, now))
    decreases |keys|
  {
    if keys != [] {
      var init := DropLast(keys);
      var u := Last(keys);
      assert keys == init + [u];
      NoDupsDropLast(keys);
      SweepAllSpec(s, init, now);
      var t := SweepAll(s, init, now);
      assert u in t.streams <==> u in s.streams;
      SaveAllSnoc(s.files, Evicted(s.streams, init, now),
        if u in s.streams && IsStale(s.streams[u], now) then [s.streams[u].(active := false)] else []);
      if u in s.streams && IsStale(s.streams[u], now) {
        assert t.streams[u] == s.streams[u];
        assert SweepAll(s, keys, now).streams == Kept(s.streams, keys, now);
      } else {
        assert SweepAll(s, keys, now).streams == Kept(s.streams, keys, now);
      }
    }
  }

  /** Every step of a cycle keeps the registry well formed. */
  lemma StoreWellFormed(s: MonitorState, info: Record)
    requires WellFormed(s)
    ensures WellFormed(Store(s, info))
  {
    if info.url !in s.streams {
      var order := s.order + [info.url];
      forall i, j | 0 <= i < j < |order|
        ensures order[i] != order[j]
      {
        if j == |order| - 1 {
          assert order[i] == s.order[i] && order[i] in s.order;
        }
      }
    }
  }

  lemma MonitorStepWellFormed(s: MonitorState, url: string, reply: GetOutcome, now: int)
    requires WellFormed(s)
    ensures WellFormed(MonitorStep(s, url, reply, now))
  {
    if Probe(url, reply, now).Some? {
      StoreWellFormed(s, Probe(url, reply, now).value);
    }
  }

  lemma EvictWellFormed(s: MonitorState, url: string, now: int)
    requires WellFormed(s)
    ensures WellFormed(Evict(s, url, now))
  {
  }

  /** One probe: the url is added or replaced iff its probe is accepted; every other entry stays. */
  lemma MonitorStepSpec(s: MonitorState, url: string, reply: GetOutcome, now: int)
    ensures forall u :: u in MonitorStep(s, url, reply, now).streams <==>
      u in s.streams || (u == url && Probe(url, reply, now).Some?)
    ensures forall u | u in MonitorStep(s, url, reply, now).streams ::
      MonitorStep(s, url, reply, now).streams[u] ==
        if u == url && Probe(url, reply, now).Some? then Probe(url, reply, now).value else s.streams[u]
  {
  }

  /**
   * Probing a duplicate-free schedule: a url ends up in the registry iff it
   * was there or its probe was accepted; an accepted probe's record
   * replaces the entry (so `first_seen` restarts), and a rejected or failed
   * probe leaves the entry as it was.
   */
  lemma {:induction false} MonitorAllSpec(s: MonitorState, schedule: seq<string>, replies: string -> GetOutcome, clock: string -> int)
    requires NoDups(schedule)
    ensures forall u :: u in MonitorAll(s, schedule, replies, clock).streams <==>
      u in s.streams || (u in schedule && Probe(u, replies(u), clock(u)).Some?)
    ensures forall u | u in MonitorAll(s, schedule, replies, clock).streams ::
      MonitorAll(s, schedule, replies, clock).streams[u] ==
        if u in schedule && Probe(u, replies(u), clock(u)).Some? then Probe(u, replies(u), clock(u)).value
        else s.streams[u]
    ensures WellFormed(s) ==> WellFormed(MonitorAll(s, schedule, replies, clock))
    decreases |schedule|
  {
    MonitorAllWellFormed(s, schedule, replies, clock);
    if schedule != [] {
      var init := DropLast(schedule);
      var x := Last(schedule);
      assert forall u :: u in schedule <==> u in init || u == x by {
        assert schedule == init + [x];
      }
      NoDupsDropLast(schedule);
      MonitorAllSpec(s, init, replies, clock);
      var mid := MonitorAll(s, init, replies, clock);
      MonitorStepSpec(mid, x, replies(x), clock(x));
    }
  }

  lemma {:induction false} MonitorAllWellFormed(s: MonitorState, schedule: seq<string>, replies: string -> GetOutcome, clock: string -> int)
    ensures WellFormed(s) ==> WellFormed(MonitorAll(s, schedule, replies, clock))
    decreases |schedule|
  {
    if schedule != [] && WellFormed(s) {
      var x := Last(schedule);
      MonitorAllWellFormed(s, DropLast(schedule), replies, clock);
      MonitorStepWellFormed(MonitorAll(s, DropLast(schedule), replies, clock), x, replies(x), clock(x));
    }
  }

  /** A whole sweep over the registry's own key order keeps it well formed and evicts exactly the stale entries. */
  lemma {:induction false} SweepWellFormed(s: MonitorState, keys: seq<string>, now: int)
    requires WellFormed(s)
    ensures WellFormed(SweepAll(s, keys, now))
    decreases |keys|
  {
    if keys != [] {
      SweepWellFormed(s, DropLast(keys), now);
      EvictWellFormed(SweepAll(s, DropLast(keys), now), Last(keys), now);
    }
  }

  /**
   * After a sweep of the whole registry a url is still there iff it was
   * there and is not stale, with its record untouched; the keys afterwards
   * are a subset of the keys before.
   */
  lemma SweepEvictsExactlyStale(s: MonitorState, now: int)
    requires WellFormed(s)
    ensures WellFormed(SweepAll(s, s.order, now))
    ensures forall u :: u in SweepAll(s, s.order, now).streams <==> u in s.streams && !IsStale(s.streams[u], now)
    ensures forall u | u in SweepAll(s, s.order, now).streams :: SweepAll(s, s.order, now).streams[u] == s.streams[u]
    ensures SweepAll(s, s.order, now).streams.Keys <= s.streams.Keys
  {
    SweepAllSpec(s, s.order, now);
    SweepWellFormed(s, s.order, now);
  }

  /** The boundary of the five-minute test: 301 seconds evicts, 300 and 299 keep. */
  lemma StaleBoundary(info: Record)
    ensures IsStale(info, info.lastActive + 301)
    ensures !IsStale(info, info.lastActive + 300)
    ensures !IsStale(info, info.lastActive + 299)
  {
  }

  /**
   * Only the seconds field of the delta is compared: a record a day and a
   * second old is kept, and one whose last activity lies five seconds in
   * the future (a clock step backwards) is evicted.
   */
  lemma StaleTestWrapsDaily(info: Record)
    ensures !IsStale(info, info.lastActive + SECONDS_PER_DAY + 1)
    ensures IsStale(info, info.lastActive - 5)
  {
    assert (SECONDS_PER_DAY + 1) % SECONDS_PER_DAY == 1;
    assert (-5) % SECONDS_PER_DAY == 86395;
  }

  /**
   * A url accepted during a cycle survives that cycle's sweep when the
   * sweep reads the clock at most 300 seconds after the probe did.
   */
  lemma FreshAcceptanceSurvives(s: MonitorState, schedule: seq<string>, replies: string -> GetOutcome,
                                clock: string -> int, now: int, u: string)
    requires WellFormed(s) && NoDups(schedule)
    requires u in schedule && Probe(u, replies(u), clock(u)).Some?
    requires clock(u) <= now <= clock(u) + STALE_SECONDS
    ensures u in Cycle(s, schedule, replies, clock, now).streams
    ensures Cycle(s, schedule, replies, clock, now).streams[u] == Probe(u, replies(u), clock(u)).value
  {
    MonitorAllSpec(s, schedule, replies, clock);
    var probed := MonitorAll(s, schedule, replies, clock);
    var info := Probe(u, replies(u), clock(u)).value;
    assert u in probed.streams && probed.streams[u] == info;
    FreshNotStale(info, now);
    SweepEvictsExactlyStale(probed, now);
  }

  /** Within 300 seconds after its last activity a record is not stale. */
  lemma FreshNotStale(info: Record, now: int)
    requires info.lastActive <= now <= info.lastActive + STALE_SECONDS
    ensures !IsStale(info, now)
  {
    assert (now - info.lastActive) % SECONDS_PER_DAY == now - info.lastActive;
  }

  /**
   * The urls a cycle probes: the seeds and the registry's keys. The seed
   * set itself becomes that union when it is non-empty; an empty (or
   * absent) seed set is replaced by a fresh set and stays empty.
   */
  function Targets(seeds: set<string>, s: MonitorState): set<string> {
    seeds + s.streams.Keys
  }

  function SeedsAfter(seeds: set<string>, s: MonitorState): (r: set<string>)
    ensures seeds <= r
    ensures seeds != {} ==> r == Targets(seeds, s)
    ensures seeds == {} ==> r == {}
  {
    if seeds == {} then seeds else Targets(seeds, s)
  }

  /**
   * Once the seed set is non-empty, every url that was ever in the registry
   * at the start of a cycle stays in it, so an evicted stream keeps being
   * probed in later cycles.
   */
  lemma EvictedStaysSeeded(seeds: set<string>, s: MonitorState, u: string)
    requires seeds != {} && u in s.streams
    ensures u in SeedsAfter(seeds, s)
    ensures SeedsAfter(seeds, s) <= SeedsAfter(SeedsAfter(seeds, s), s)
  {
  }

  // ---------------------------------------------------------------------
  // The monitor

  class StreamMonitor {
    var activeStreams: map<string, Record>
    /** The insertion order of `activeStreams`' keys. */
    var keyOrder: seq<string>
    var monitorRunning: bool
    /** `active_streams.json`. */
    var activeFile: Document
    /** `stream_history.json`. */
    var historyFile: Document

    function State(): MonitorState
      reads this
    {
      MonitorState(activeStreams, keyOrder, Files(activeFile, historyFile))
    }

    ghost predicate Valid()
      reads this
    {
      WellFormed(State())
    }

    /** A monitor with an empty registry, not running, over the files as they are on disk. */
    constructor(files: Files)
      ensures Valid() && State() == MonitorState(map[], [], files) && !monitorRunning
    {
      activeStreams := map[];
      keyOrder := [];
      monitorRunning := false;
      activeFile := files.active;
      historyFile := files.history;
    }

    /** `save_stream_info(info)`: merge into the active file, then into the history file. */
    method SaveStreamInfo(info: Record)
      modifies this`activeFile, this`historyFile
      ensures Files(activeFile, historyFile) == Save(old(Files(activeFile, historyFile)), info)
    {
      var loaded := Load(activeFile);
      if loaded.None? {
        return;
      }
      var activeData := loaded.value;
      if info.url !in Urls(activeData) {
        activeData := activeData + [info];
      }
      activeFile := Streams(activeData);
      var history := Load(historyFile);
      if history.None? {
        return;
      }
      var historyData := history.value;
      if info.url !in Urls(historyData) {
        historyData := historyData + [info];
        historyFile := Streams(historyData);
      }
    }

    /** `monitor_stream(url)` with the response it receives and the clock reading. */
    method MonitorStream(url: string, reply: GetOutcome, now: int)
      requires Valid()
      modifies this`activeStreams, this`keyOrder, this`activeFile, this`historyFile
      ensures Valid() && State() == MonitorStep(old(State()), url, reply, now)
    {
      MonitorStepWellFormed(State(), url, reply, now);
      if reply.Failed? || reply.status != 200 {
        return;
      }
      var contentType := reply.contentType.GetOr("");
      if !Protocols.IsVideoContentType(contentType) {
        return;
      }
      var chunk := Take(reply.body, CHUNK_SIZE);
      if Protocols.ValidateProtocolResponse(chunk, "video") {
        var info := Record(url, contentType, now, now, |chunk|, true);
        if url !in activeStreams {
          keyOrder := keyOrder + [url];
        }
        activeStreams := activeStreams[url := info];
        SaveStreamInfo(info);
      }
    }

    /** The cleanup of one key: a stale stream is saved inactive, then dropped from the registry. */
    method EvictIfStale(url: string, now: int)
      requires Valid()
      modifies this`activeStreams, this`keyOrder, this`activeFile, this`historyFile
      ensures Valid() && State() == Evict(old(State()), url, now)
    {
      ghost var start := State();
      EvictWellFormed(start, url, now);
      if url in activeStreams && IsStale(activeStreams[url], now) {
        // The entry is marked inactive before it is saved; it is deleted
        // right after, so only the saved copy carries the mark.
        var info := activeStreams[url].(active := false);
        SaveStreamInfo(info);
        activeStreams := activeStreams - {url};
        keyOrder := Remove(keyOrder, url);
        assert State() == MonitorState(start.streams - {url}, Remove(start.order, url), Save(start.files, info));
      }
    }

    /** The cleanup loop of one cycle, over a snapshot of the keys. */
    method Sweep(now: int)
      requires Valid()
      modifies this`activeStreams, this`keyOrder, this`activeFile, this`historyFile
      ensures Valid() && State() == SweepAll(old(State()), old(keyOrder), now)
    {
      var keys := keyOrder;
      ghost var start := State();
      var i := 0;
      while i < |keys|
        invariant 0 <= i <= |keys|
        invariant Valid()
        invariant State() == SweepAll(start, keys[..i], now)
      {
        assert DropLast(keys[..i + 1]) == keys[..i];
        EvictIfStale(keys[i], now);
        i := i + 1;
      }
      assert keys[..|keys|] == keys;
    }

    /**
     * One turn of the `while self.monitor_running` loop. The flag is read
     * at the loop head only: a stopped monitor runs nothing. `schedule` is
     * the order in which the gathered probes finish; it lists each target
     * once. The caller's seed set is returned as it is afterwards.
     */
    method MonitorCycle(seeds: set<string>, schedule: seq<string>, replies: string -> GetOutcome,
                        clock: string -> int, now: int)
      returns (ran: bool, seedsAfter: set<string>)
      requires Valid()
      requires NoDups(schedule) && forall u :: u in schedule <==> u in seeds || u in activeStreams
      modifies this`activeStreams, this`keyOrder, this`activeFile, this`historyFile
      ensures Valid() && ran == monitorRunning
      ensures ran ==> State() == Cycle(old(State()), schedule, replies, clock, now)
      ensures ran ==> seedsAfter == SeedsAfter(seeds, old(State()))
      ensures !ran ==> State() == old(State()) && seedsAfter == seeds
    {
      ran := monitorRunning;
      seedsAfter := seeds;
      if !ran {
        return;
      }
      if seeds != {} {
        seedsAfter := seeds + activeStreams.Keys;
      }
      ghost var start := State();
      var i := 0;
      while i < |schedule|
        invariant 0 <= i <= |schedule|
        invariant Valid()
        invariant State() == MonitorAll(start, schedule[..i], replies, clock)
      {
        assert DropLast(schedule[..i + 1]) == schedule[..i];
        var url := schedule[i];
        MonitorStream(url, replies(url), clock(url));
        i := i + 1;
      }
      assert schedule[..|schedule|] == schedule;
      Sweep(now);
    }

    /** `start_monitoring`: raise the flag and run the first cycle. */
    method StartMonitoring(seeds: set<string>, schedule: seq<string>, replies: string -> GetOutcome,
                           clock: string -> int, now: int)
      returns (seedsAfter: set<string>)
      requires Valid()
      requires NoDups(schedule) && forall u :: u in schedule <==> u in seeds || u in activeStreams
      modifies this
      ensures Valid() && monitorRunning
      ensures State() == Cycle(old(State()), schedule, replies, clock, now)
      ensures seedsAfter == SeedsAfter(seeds, old(State()))
    {
      monitorRunning := true;
      var ran;
      ran, seedsAfter := MonitorCycle(seeds, schedule, replies, clock, now);
    }

    /** `stop_monitoring`: lower the flag; the registry and files are untouched. */
    method StopMonitoring()
      modifies this`monitorRunning
      ensures !monitorRunning
    {
      monitorRunning := false;
    }
  }
}
