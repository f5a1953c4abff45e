/**
 * utils.py: the port-reachability and URL-probe decisions, taken over the
 * outcome of the network call, and the rendering of the discovered set as
 * the text of the results file.
 */
module Utils {
  import opened Common
  import opened Text
  import opened Seqs

  /** What `asyncio.open_connection(ip, port)` did, bounded by the timeout. */
  datatype PortOutcome =
    | Open            // connected, and the writer closed cleanly
    | ConnectTimeout  // asyncio.TimeoutError
    | Refused         // ConnectionRefusedError
    | OsError         // any other OSError
    | OtherFailure    // an exception outside those three, which check_port does not catch

  /**
   * `check_port`: True iff the connection opened; timeout, refusal and other
   * OS errors all give the same False; any other exception escapes.
   */
  function CheckPort(outcome: PortOutcome): (r: Outcome<bool>)
    ensures r == Returned(true) <==> outcome == Open
    ensures r == Raised <==> outcome == OtherFailure
  {
    match outcome
    case Open => Returned(true)
    case OtherFailure => Raised
    case _ => Returned(false)
  }

  /** What an HTTP request did: a response (status, `content-type` header if present) or an exception. */
  datatype HttpReply =
    | Reply(status: int, contentType: Option<string>)
    | ClientError     // aiohttp.ClientError
    | RequestTimeout  // asyncio.TimeoutError
    | OtherError      // any other exception, which probe_url does not catch

  /** Fragments `probe_url` looks for in the lower-cased content type. */
  const PROBE_MEDIA_TYPES: seq<string> := ["video", "stream", "mpegurl", "application"]

  predicate MentionsMedia(contentType: string) {
    exists k | 0 <= k < |PROBE_MEDIA_TYPES| :: Contains(Lower(contentType), PROBE_MEDIA_TYPES[k])
  }

  /**
   * `probe_url`: True only for status 200 with a media-like content type
   * (a missing header reads as ''); False for any other status, a client
   * error or a timeout; other exceptions escape.
   */
  function ProbeUrl(reply: HttpReply): (r: Outcome<bool>)
    ensures r == Returned(true) <==> reply.Reply? && reply.status == 200 && MentionsMedia(reply.contentType.GetOr(""))
    ensures r == Raised <==> reply.OtherError?
  {
    match reply
    case Reply(status, contentType) => Returned(status == 200 && MentionsMedia(contentType.GetOr("")))
    case OtherError => Raised
    case _ => Returned(false)
  }

  /** Python's `a < b` on `str`: lexicographic order of code points, a proper prefix first. */
  predicate LexLess(a: string, b: string)
    decreases |a|
  {
    if a == [] then b != []
    else b != [] && (a[0] < b[0] || (a[0] == b[0] && LexLess(a[1..], b[1..])))
  }

  lemma {:induction false} LexLessAsymmetric(a: string, b: string)
    requires LexLess(a, b)
    ensures !LexLess(b, a)
    decreases |a|
  {
    if a != [] && b != [] && a[0] == b[0] {
      LexLessAsymmetric(a[1..], b[1..]);
    }
  }

  lemma {:induction false} LexLessTransitive(a: string, b: string, c: string)
    requires LexLess(a, b) && LexLess(b, c)
    ensures LexLess(a, c)
    decreases |a|
  {
    if a != [] && a[0] == b[0] && b[0] == c[0] {
      LexLessTransitive(a[1..], b[1..], c[1..]);
    }
  }

  lemma {:induction false} LexLessTotal(a: string, b: string)
    requires a != b
    ensures LexLess(a, b) || LexLess(b, a)
    decreases |a|
  {
    if a != [] && b != [] && a[0] == b[0] {
      assert a == [a[0]] + a[1..] && b == [b[0]] + b[1..];
      LexLessTotal(a[1..], b[1..]);
    }
  }

  /** `m` is the smallest element of `s`. */
  predicate IsLeast(m: string, s: set<string>) {
    m in s && forall x | x in s && x != m :: LexLess(m, x)
  }

  lemma {:induction false} LeastExists(s: set<string>)
    requires s != {}
    ensures exists m :: IsLeast(m, s)
    decreases s
  {
    var x :| x in s;
    var rest := s - {x};
    if rest == {} {
      assert s == {x};
      assert IsLeast(x, s);
    } else {
      LeastExists(rest);
      var m :| IsLeast(m, rest);
      LexLessTotal(x, m);
      if LexLess(x, m) {
        forall y | y in s && y != x
          ensures LexLess(x, y)
        {
          if y != m { LexLessTransitive(x, m, y); }
        }
        assert IsLeast(x, s);
      } else {
        assert IsLeast(m, s);
      }
    }
  }

  lemma LeastUnique(s: set<string>)
    ensures forall a, b :: IsLeast(a, s) && IsLeast(b, s) ==> a == b
  {
    forall a, b | IsLeast(a, s) && IsLeast(b, s)
      ensures a == b
    {
      if a != b { LexLessAsymmetric(a, b); }
    }
  }

  /** `sorted(streams)`: the set's elements in ascending order. */
  ghost function SortedList(s: set<string>): seq<string>
    decreases s
  {
    if s == {} then []
    else
      LeastExists(s);
      var m :| IsLeast(m, s);
      [m] + SortedList(s - {m})
  }

  lemma SortedListUnfold(s: set<string>, m: string)
    requires IsLeast(m, s)
    ensures SortedList(s) == [m] + SortedList(s - {m})
  {
    LeastUnique(s);
  }

  /** Strictly ascending: each element is below every later one. */
  predicate StrictlyAscending(xs: seq<string>) {
    forall i, j | 0 <= i < j < |xs| :: LexLess(xs[i], xs[j])
  }

  /** `sorted(streams)` lists every stream exactly once, in ascending order. */
  lemma {:induction false} SortedListIsSortedSet(s: set<string>)
    ensures |SortedList(s)| == |s|
    ensures forall x :: x in SortedList(s) <==> x in s
    ensures StrictlyAscending(SortedList(s))
    decreases s
  {
    if s != {} {
      LeastExists(s);
      var m :| IsLeast(m, s);
      SortedListUnfold(s, m);
      SortedListIsSortedSet(s - {m});
      var xs := SortedList(s);
      assert xs[1..] == SortedList(s - {m});
      forall i, j | 0 <= i < j < |xs|
        ensures LexLess(xs[i], xs[j])
      {
        if i == 0 {
          assert xs[j] == xs[1..][j - 1];
          assert xs[j] in s - {m};
        } else {
          assert xs[i] == xs[1..][i - 1] && xs[j] == xs[1..][j - 1];
        }
      }
    }
  }

  /** The file text: each line followed by a newline. */
  function Render(lines: seq<string>): string
    decreases |lines|
  {
    if lines == [] then "" else Render(DropLast(lines)) + Last(lines) + "\n"
  }

  /**
   * `save_streams`, writing into a string instead of a file: one line per
   * stream, in `sorted` order, each terminated by a newline.
   */
  method SaveStreams(streams: set<string>) returns (text: string)
    ensures text == Render(SortedList(streams))
  {
    text := "";
    var rest := streams;
    ghost var done: seq<string> := [];
    while rest != {}
      invariant rest <= streams
      invariant SortedList(streams) == done + SortedList(rest)
      invariant text == Render(done)
      decreases rest
    {
      LeastExists(rest);
      var m :| m in rest && IsLeast(m, rest);
      SortedListUnfold(rest, m);
      assert DropLast(done + [m]) == done;
      text := text + m + "\n";
      done := done + [m];
      rest := rest - {m};
    }
    assert SortedList(rest) == [];
    assert done + [] == done;
  }

  /** Python's `text.split("\n")`: the pieces between newlines, always at least one. */
  function Split(s: string): (r: seq<string>)
    ensures |r| >= 1
    decreases |s|
  {
    if s == [] then [""]
    else
      var rest := Split(s[1..]);
      if s[0] == '\n' then [""] + rest else [[s[0]] + rest[0]] + rest[1..]
  }

  lemma {:induction false} SplitLine(x: string, rest: string)
    requires '\n' !in x
    ensures Split(x + "\n" + rest) == [x] + Split(rest)
    decreases |x|
  {
    if x == [] {
      assert x + "\n" + rest == "\n" + rest;
      assert ("\n" + rest)[1..] == rest;
    } else {
      var s := x + "\n" + rest;
      assert s[1..] == x[1..] + "\n" + rest;
      SplitLine(x[1..], rest);
      assert [s[0]] + x[1..] == x;
    }
  }

  lemma {:induction false} RenderFront(x: string, ys: seq<string>)
    ensures Render([x] + ys) == x + "\n" + Render(ys)
    decreases |ys|
  {
    if ys == [] {
      assert DropLast([x]) == [];
    } else {
      assert DropLast([x] + ys) == [x] + DropLast(ys);
      RenderFront(x, DropLast(ys));
    }
  }

  /** Splitting rendered lines on newlines gives the lines back, plus the empty piece after the last newline. */
  lemma {:induction false} RenderSplitRoundTrip(lines: seq<string>)
    requires forall i | 0 <= i < |lines| :: '\n' !in lines[i]
    ensures Split(Render(lines)) == lines + [""]
    decreases |lines|
  {
    if lines != [] {
      assert lines == [lines[0]] + lines[1..];
      RenderFront(lines[0], lines[1..]);
      SplitLine(lines[0], Render(lines[1..]));
      RenderSplitRoundTrip(lines[1..]);
    }
  }

  /**
   * The saved text of a newline-free set reads back as `sorted(streams)`
   * once the final empty piece is dropped; so it has one line per stream,
   * and an empty set gives empty text.
   */
  lemma SaveStreamsRoundTrip(streams: set<string>)
    requires forall u | u in streams :: '\n' !in u
    ensures Split(Render(SortedList(streams))) == SortedList(streams) + [""]
    ensures |Split(Render(SortedList(streams)))| == |streams| + 1
    ensures streams == {} ==> Render(SortedList(streams)) == ""
  {
    SortedListIsSortedSet(streams);
    var xs := SortedList(streams);
    forall i | 0 <= i < |xs|
      ensures '\n' !in xs[i]
    {
      assert xs[i] in streams;
    }
    RenderSplitRoundTrip(xs);
  }
}
