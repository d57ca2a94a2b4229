/** The downloader: `_download_bi5`. The network and the file system are a value threaded
    through each call: a script of replies the server will give, the cache files, and the
    log of URLs requested so far. */
module Download {
  import opened Common
  import opened Paths

  /** Below this many bytes a successful body counts as "no data for this hour". */
  const MIN_PAYLOAD: int := 64

  /** What one GET produces: a status code and body, or a transport exception. */
  datatype Response = Reply(status: int, body: seq<byte>) | ConnectionFailure

  datatype World = World(files: map<Path, seq<byte>>, replies: seq<Response>, requested: seq<string>)

  /** How the retry loop treats one response. */
  datatype Outcome =
    | NotFound          // 404: no such hour
    | TooSmall          // any other status with an empty or tiny body
    | Transient         // a transport exception or a 4xx/5xx status: try again
    | Payload(body: seq<byte>)

  function Classify(resp: Response): (o: Outcome)
    ensures o.Payload? ==> resp.Reply? && |o.body| >= MIN_PAYLOAD && o.body == resp.body
    ensures o.Transient? <==> resp.ConnectionFailure? || (resp.status != 404 && 400 <= resp.status < 600)
    ensures o.NotFound? <==> resp.Reply? && resp.status == 404
    ensures resp.Reply? && resp.status != 404 && !(400 <= resp.status < 600) && |resp.body| >= MIN_PAYLOAD ==>
              o == Payload(resp.body)
  {
    match resp
    case ConnectionFailure => Transient
    case Reply(status, body) =>
      if status == 404 then NotFound
      else if 400 <= status < 600 then Transient
      else if |body| == 0 then TooSmall
      else if |body| < MIN_PAYLOAD then TooSmall
      else Payload(body)
  }

  /** The next response: the head of the script, or a transport exception once it is spent. */
  function NextResponse(w: World): Response {
    if w.replies == [] then ConnectionFailure else w.replies[0]
  }

  /** Issues one GET for `url`: logs it and consumes one scripted reply. */
  function Request(url: string, w: World): (w': World)
    ensures w'.files == w.files && w'.requested == w.requested + [url]
    ensures w'.replies == if w.replies == [] then [] else w.replies[1..]
  {
    w.(replies := if w.replies == [] then [] else w.replies[1..], requested := w.requested + [url])
  }

  /** `cache_path.exists() and cache_path.stat().st_size > 0`. */
  predicate CacheHit(cachePath: Option<Path>, w: World) {
    cachePath.Some? && cachePath.value in w.files && |w.files[cachePath.value]| > 0
  }

  /** Stores a payload at the cache path, if there is one. */
  function StoreInCache(cachePath: Option<Path>, body: seq<byte>, w: World): (w': World)
    ensures w'.replies == w.replies && w'.requested == w.requested
    ensures cachePath.Some? ==> w'.files == w.files[cachePath.value := body]
    ensures cachePath.None? ==> w'.files == w.files
  {
    if cachePath.Some? then w.(files := w.files[cachePath.value := body]) else w
  }

  /** The retry loop with `remaining` attempts left. */
  function Attempts(url: string, cachePath: Option<Path>, remaining: nat, w: World): (Option<seq<byte>>, World)
    decreases remaining
  {
    if remaining == 0 then (None, w)
    else
      var w1 := Request(url, w);
      match Classify(NextResponse(w))
      case NotFound => (None, w1)
      case TooSmall => (None, w1)
      case Transient => Attempts(url, cachePath, remaining - 1, w1)
      case Payload(body) => (Some(body), StoreInCache(cachePath, body, w1))
  }

  /** `_download_bi5`: a non-empty cache file is returned as is; otherwise up to `retries`
      attempts (none when `retries` is 0 or negative). */
  function Fetch(url: string, cachePath: Option<Path>, retries: int, w: World): (Option<seq<byte>>, World) {
    if CacheHit(cachePath, w) then (Some(w.files[cachePath.value]), w)
    else Attempts(url, cachePath, if retries > 0 then retries else 0, w)
  }

  /** `_download_bi5` with its `for attempt in range(1, retries + 1)` loop. */
  method DownloadBi5(url: string, cachePath: Option<Path>, retries: int, w: World)
    returns (data: Option<seq<byte>>, w': World)
    ensures (data, w') == Fetch(url, cachePath, retries, w)
  {
    if CacheHit(cachePath, w) {
      return Some(w.files[cachePath.value]), w;
    }
    w' := w;
    var attempt := 1;
    while attempt <= retries
      invariant 1 <= attempt && (retries > 0 ==> attempt <= retries + 1)
      invariant Attempts(url, cachePath, if retries > 0 then retries else 0, w)
             == Attempts(url, cachePath, if retries >= attempt then retries - attempt + 1 else 0, w')
      decreases retries - attempt
    {
      var resp := NextResponse(w');
      w' := Request(url, w');
      match Classify(resp) {
        case NotFound =>
          return None, w';
        case TooSmall =>
          return None, w';
        case Payload(body) =>
          w' := StoreInCache(cachePath, body, w');
          return Some(body), w';
        case Transient =>
      }
      attempt := attempt + 1;
    }
    data := None;
  }

  // ---------------------------------------------------------------------------
  // What a download does to the world

  /** `k` requests for `url` were made, and `k` scripted replies (or all of them) consumed. */
  predicate MadeRequests(w: World, w': World, url: string, k: nat) {
    && w'.requested == w.requested + seq(k, _ => url)
    && w'.replies == (if k <= |w.replies| then w.replies[k..] else [])
  }

  function ResponseAt(w: World, i: nat): Response {
    if i < |w.replies| then w.replies[i] else ConnectionFailure
  }

  /** The retry loop made `k` attempts: all before the last were transient, the last decides
      the result, and the cache changed only when a payload was returned (to that payload). */
  predicate AttemptLog(url: string, cachePath: Option<Path>, remaining: nat, w: World,
                       r: Option<seq<byte>>, w': World, k: nat)
  {
    && k <= remaining
    && MadeRequests(w, w', url, k)
    && (forall i :: 0 <= i < k - 1 ==> Classify(ResponseAt(w, i)).Transient?)
    && (r.Some? ==> k > 0 && Classify(ResponseAt(w, k - 1)) == Payload(r.value))
    && (r.None? && k < remaining ==> k > 0 && Classify(ResponseAt(w, k - 1)) in {NotFound, TooSmall})
    && (r.None? && k == remaining && k > 0 ==> !Classify(ResponseAt(w, k - 1)).Payload?)
    && w'.files == (if r.Some? && cachePath.Some? then w.files[cachePath.value := r.value] else w.files)
  }

  /** How many attempts the retry loop makes. */
  function AttemptCount(url: string, cachePath: Option<Path>, remaining: nat, w: World): nat
    decreases remaining
  {
    if remaining == 0 then 0
    else if Classify(NextResponse(w)).Transient? then 1 + AttemptCount(url, cachePath, remaining - 1, Request(url, w))
    else 1
  }

  /** Every run of the retry loop is described by its `AttemptLog`. */
  lemma {:induction false} AttemptsOutcome(url: string, cachePath: Option<Path>, remaining: nat, w: World)
    ensures var res := Attempts(url, cachePath, remaining, w);
      AttemptLog(url, cachePath, remaining, w, res.0, res.1, AttemptCount(url, cachePath, remaining, w))
    decreases remaining
  {
    var res := Attempts(url, cachePath, remaining, w);
    var r, w' := res.0, res.1;
    if remaining == 0 {
      assert AttemptLog(url, cachePath, remaining, w, r, w', 0);
    } else {
      var w1 := Request(url, w);
      var o := Classify(NextResponse(w));
      assert NextResponse(w) == ResponseAt(w, 0);
      if o.Transient? {
        AttemptsOutcome(url, cachePath, remaining - 1, w1);
        TransientLog(url, cachePath, remaining, w, w1, r, w', AttemptCount(url, cachePath, remaining - 1, w1));
      } else {
        FinalAttemptLog(url, cachePath, remaining, w);
      }
    }
  }

  /** A first attempt that is not transient is the only one, and the log says how it ended. */
  lemma FinalAttemptLog(url: string, cachePath: Option<Path>, remaining: nat, w: World)
    requires remaining > 0 && !Classify(NextResponse(w)).Transient?
    ensures var res := Attempts(url, cachePath, remaining, w);
      AttemptLog(url, cachePath, remaining, w, res.0, res.1, 1)
  {
    var res := Attempts(url, cachePath, remaining, w);
    var r, w' := res.0, res.1;
    var o := Classify(NextResponse(w));
    assert NextResponse(w) == ResponseAt(w, 0);
    assert r.Some? ==> o == Payload(r.value);
    assert seq(1, _ => url) == [url];
  }

  /** A transient first attempt adds one attempt in front of the log of the rest. */
  lemma TransientLog(url: string, cachePath: Option<Path>, remaining: nat, w: World, w1: World,
                     r: Option<seq<byte>>, w': World, k: nat)
    requires remaining > 0 && w1 == Request(url, w) && Classify(ResponseAt(w, 0)).Transient?
    requires AttemptLog(url, cachePath, remaining - 1, w1, r, w', k)
    ensures AttemptLog(url, cachePath, remaining, w, r, w', k + 1)
  {
    ShiftResponses(w, w1, url);
    ShiftRequests(w, w1, w', url, k);
    forall i | 0 <= i < k ensures Classify(ResponseAt(w, i)).Transient? {
      if i > 0 {
        assert ResponseAt(w, i) == ResponseAt(w1, i - 1);
      }
    }
    if k > 0 {
      assert ResponseAt(w, k) == ResponseAt(w1, k - 1);
    }
  }

  lemma ShiftResponses(w: World, w1: World, url: string)
    requires w1 == Request(url, w)
    ensures forall i: nat :: ResponseAt(w1, i) == ResponseAt(w, i + 1)
    ensures forall i: nat :: i > 0 ==> ResponseAt(w, i) == ResponseAt(w1, i - 1)
  {
  }

  lemma ShiftRequests(w: World, w1: World, w': World, url: string, k: nat)
    requires w1 == Request(url, w) && MadeRequests(w1, w', url, k)
    ensures MadeRequests(w, w', url, k + 1)
  {
    assert w.requested + [url] + seq(k, _ => url) == w.requested + seq(k + 1, _ => url);
    if w.replies != [] && k + 1 <= |w.replies| {
      assert w.replies[1..][k..] == w.replies[k + 1..];
    }
  }

  // ---------------------------------------------------------------------------
  // `_download_bi5`'s promises

  /** A non-empty cache file is returned without any request and without touching anything. */
  lemma CacheHitMakesNoRequest(url: string, cachePath: Option<Path>, retries: int, w: World)
    requires CacheHit(cachePath, w)
    ensures Fetch(url, cachePath, retries, w) == (Some(w.files[cachePath.value]), w)
    ensures |Fetch(url, cachePath, retries, w).1.requested| == |w.requested|
  {
  }

  /** Without a cache hit, a download makes at most `retries` requests, all for `url`; earlier
      attempts were transient failures, and the cache changes only by storing the payload
      that is returned. */
  lemma FetchOutcome(url: string, cachePath: Option<Path>, retries: int, w: World)
    requires !CacheHit(cachePath, w)
    ensures var (r, w') := Fetch(url, cachePath, retries, w);
      var k := |w'.requested| - |w.requested|;
      && 0 <= k <= (if retries > 0 then retries else 0)
      && (retries > 0 ==> k > 0)
      && w'.requested == w.requested + seq(k, _ => url)
      && (forall i :: 0 <= i < k - 1 ==> Classify(ResponseAt(w, i)).Transient?)
      && (r.Some? ==>
            && k > 0 && |r.value| >= MIN_PAYLOAD
            && ResponseAt(w, k - 1).Reply? && ResponseAt(w, k - 1).body == r.value)
      && w'.files == (if r.Some? && cachePath.Some? then w.files[cachePath.value := r.value] else w.files)
  {
    var remaining := if retries > 0 then retries else 0;
    AttemptsOutcome(url, cachePath, remaining, w);
  }

  /** A 404 answers at once: one request, no retry, nothing cached. */
  lemma NotFoundIsFinal(url: string, cachePath: Option<Path>, retries: int, w: World, body: seq<byte>)
    requires !CacheHit(cachePath, w) && retries >= 1
    requires w.replies != [] && w.replies[0] == Reply(404, body)
    ensures var (r, w') := Fetch(url, cachePath, retries, w);
      r == None && w'.requested == w.requested + [url] && w'.files == w.files
  {
  }

  /** An empty or tiny successful body is "no data": one request, nothing cached. */
  lemma TinyBodyIsNoData(url: string, cachePath: Option<Path>, retries: int, w: World, status: int)
    requires !CacheHit(cachePath, w) && retries >= 1
    requires w.replies != [] && w.replies[0].Reply? && w.replies[0].status == status
    requires status != 404 && !(400 <= status < 600) && |w.replies[0].body| < MIN_PAYLOAD
    ensures var (r, w') := Fetch(url, cachePath, retries, w);
      r == None && w'.requested == w.requested + [url] && w'.files == w.files
  {
  }

  /** A payload of at least 64 bytes is returned and becomes the cache content, so the next
      download of the same hour is served from the cache without a request. */
  lemma PayloadIsCached(url: string, p: Path, retries: int, w: World, status: int, body: seq<byte>)
    requires !CacheHit(Some(p), w) && retries >= 1
    requires w.replies != [] && w.replies[0] == Reply(status, body)
    requires status != 404 && !(400 <= status < 600) && |body| >= MIN_PAYLOAD
    ensures var (r, w') := Fetch(url, Some(p), retries, w);
      && r == Some(body)
      && w'.files == w.files[p := body]
      && w'.requested == w.requested + [url]
      && Fetch(url, Some(p), retries, w') == (Some(body), w')
  {
  }

  /** When every attempt fails transiently, the result is `None` after exactly `retries`
      requests, with the cache untouched. */
  lemma {:induction false} AllTransientGiveNone(url: string, cachePath: Option<Path>, remaining: nat, w: World)
    requires forall i :: 0 <= i < remaining ==> Classify(ResponseAt(w, i)).Transient?
    ensures var (r, w') := Attempts(url, cachePath, remaining, w);
      r == None && w'.requested == w.requested + seq(remaining, _ => url) && w'.files == w.files
    decreases remaining
  {
    if remaining > 0 {
      var w1 := Request(url, w);
      assert NextResponse(w) == ResponseAt(w, 0);
      ShiftResponses(w, w1, url);
      forall i | 0 <= i < remaining - 1 ensures Classify(ResponseAt(w1, i)).Transient? {
        assert ResponseAt(w1, i) == ResponseAt(w, i + 1);
      }
      AllTransientGiveNone(url, cachePath, remaining - 1, w1);
      assert w.requested + [url] + seq(remaining - 1, _ => url) == w.requested + seq(remaining, _ => url);
    }
  }
}
