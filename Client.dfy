/**
 * The client object: argument checks and option defaults at construction, the server-time
 * cache held in its `timecache` field, and the signing of each request with the cached time.
 */
module Client {
  import opened Wrappers
  import opened Strings
  import opened Types

  /** Twenty minutes. */
  const DefaultMaxTimecacheAgeMs: int := 1200000

  /**
   * The constructor's checks, in order, and its option defaults: each of the URL, key id and
   * secret must be non-empty; the maximum cache age and the transport default unless given.
   */
  function CheckArgs(apiUrl: string, keyId: string, secretKey: string, opts: Option<PartialOptions>)
    : (r: Result<ClientOptions, string>)
    ensures r.Success? <==> apiUrl != "" && keyId != "" && secretKey != ""
    ensures apiUrl == "" ==> r == Failure("missing apiUrl argument")
    ensures apiUrl != "" && keyId == "" ==> r == Failure("missing keyId argument")
    ensures apiUrl != "" && keyId != "" && secretKey == "" ==> r == Failure("missing secretKey argument")
    ensures r.Success? && (opts.None? || opts.value.maxTimecacheAgeMs.None?) ==>
      r.value.maxTimecacheAgeMs == DefaultMaxTimecacheAgeMs
    ensures r.Success? && opts.Some? && opts.value.maxTimecacheAgeMs.Some? ==>
      r.value.maxTimecacheAgeMs == opts.value.maxTimecacheAgeMs.value
    ensures r.Success? ==> r.value.web3 == (if opts.Some? then opts.value.web3 else None)
    ensures r.Success? && (opts.None? || opts.value.fetch.None?) ==> r.value.fetch == NodeFetch
    ensures r.Success? && opts.Some? && opts.value.fetch.Some? ==> r.value.fetch == opts.value.fetch.value
  {
    if apiUrl == "" then Failure("missing apiUrl argument")
    else if keyId == "" then Failure("missing keyId argument")
    else if secretKey == "" then Failure("missing secretKey argument")
    else
      match opts
      case None => Success(ClientOptions(DefaultMaxTimecacheAgeMs, None, NodeFetch))
      case Some(o) =>
        Success(ClientOptions(o.maxTimecacheAgeMs.GetOr(DefaultMaxTimecacheAgeMs), o.web3, o.fetch.GetOr(NodeFetch)))
  }

  // ---------------------------------------------------------------------------------------
  // The server-time cache

  /** The server time last fetched and the local clock reading taken when it was stored. */
  datatype TimeCache = TimeCache(serverMs: int, localMs: int)

  /**
   * The inputs of one `getServerTime` call: the clock reading of the age check, the server time a
   * fetch would return, the clock reading stored with it, and the clock reading of the result.
   */
  datatype TimeRequest = TimeRequest(checkedAt: int, fetchedServerMs: int, storedAt: int, returnedAt: int)

  /** The cache is cold: absent, or older than the maximum age (strictly). */
  predicate NeedsRefresh(cache: Option<TimeCache>, now: int, maxAgeMs: int)
  {
    cache.None? || now - cache.value.localMs > maxAgeMs
  }

  /** The server time estimated at clock reading `now`. */
  function Adjusted(c: TimeCache, now: int): int
  {
    c.serverMs + (now - c.localMs)
  }

  /** The cache after a call: refreshed when cold, untouched when warm. */
  function CacheAfter(cache: Option<TimeCache>, req: TimeRequest, maxAgeMs: int): (c: TimeCache)
    ensures NeedsRefresh(cache, req.checkedAt, maxAgeMs) ==> c == TimeCache(req.fetchedServerMs, req.storedAt)
    ensures !NeedsRefresh(cache, req.checkedAt, maxAgeMs) ==> Some(c) == cache
  {
    if NeedsRefresh(cache, req.checkedAt, maxAgeMs) then TimeCache(req.fetchedServerMs, req.storedAt)
    else cache.value
  }

  /** The timestamp a call returns, from the possibly refreshed cache. */
  function ServerTimeAt(cache: Option<TimeCache>, req: TimeRequest, maxAgeMs: int): int
  {
    Adjusted(CacheAfter(cache, req, maxAgeMs), req.returnedAt)
  }

  /** Right after a refresh, at the clock reading it stored, the result is the fetched server time. */
  lemma RefreshReturnsFetched(cache: Option<TimeCache>, req: TimeRequest, maxAgeMs: int)
    requires NeedsRefresh(cache, req.checkedAt, maxAgeMs) && req.returnedAt == req.storedAt
    ensures ServerTimeAt(cache, req, maxAgeMs) == req.fetchedServerMs
  {
  }

  /** A warm cache is reused and the local clock's progress since it was stored is added. */
  lemma WarmCacheAdvances(c: TimeCache, req: TimeRequest, maxAgeMs: int)
    requires req.checkedAt - c.localMs <= maxAgeMs
    ensures CacheAfter(Some(c), req, maxAgeMs) == c
    ensures ServerTimeAt(Some(c), req, maxAgeMs) == c.serverMs + (req.returnedAt - c.localMs)
  {
  }

  /** The number of server-time fetches a sequence of calls makes. */
  function Probes(cache: Option<TimeCache>, reqs: seq<TimeRequest>, maxAgeMs: int): nat
    decreases |reqs|
  {
    if reqs == [] then 0
    else
      (if NeedsRefresh(cache, reqs[0].checkedAt, maxAgeMs) then 1 else 0) +
      Probes(Some(CacheAfter(cache, reqs[0], maxAgeMs)), reqs[1..], maxAgeMs)
  }

  /** The cache after a sequence of calls. */
  function FinalCache(cache: Option<TimeCache>, reqs: seq<TimeRequest>, maxAgeMs: int): Option<TimeCache>
    decreases |reqs|
  {
    if reqs == [] then cache else FinalCache(Some(CacheAfter(cache, reqs[0], maxAgeMs)), reqs[1..], maxAgeMs)
  }

  /** The timestamps a sequence of calls returns. */
  function Stamps(cache: Option<TimeCache>, reqs: seq<TimeRequest>, maxAgeMs: int): (ts: seq<int>)
    ensures |ts| == |reqs|
    decreases |reqs|
  {
    if reqs == [] then []
    else [ServerTimeAt(cache, reqs[0], maxAgeMs)] + Stamps(Some(CacheAfter(cache, reqs[0], maxAgeMs)), reqs[1..], maxAgeMs)
  }

  /** Each call's age check reads the clock strictly after the previous refresh stored its reading. */
  predicate ClockAdvances(cache: Option<TimeCache>, reqs: seq<TimeRequest>)
  {
    (|reqs| > 0 && cache.Some? ==> reqs[0].checkedAt > cache.value.localMs) &&
    forall i :: 0 < i < |reqs| ==> reqs[i].checkedAt > reqs[i - 1].storedAt
  }

  /**
   * The age check is strict: with a maximum age of 0, a second call within the same millisecond
   * as the refresh reuses the cache instead of fetching.
   */
  lemma SameMillisecondReusesCache(t: int, f1: int, f2: int)
    ensures var reqs := [TimeRequest(t, f1, t, t), TimeRequest(t, f2, t, t)];
      Probes(None, reqs, 0) == 1 && FinalCache(None, reqs, 0) == Some(TimeCache(f1, t)) &&
      Stamps(None, reqs, 0) == [f1, f1]
  {
    var reqs := [TimeRequest(t, f1, t, t), TimeRequest(t, f2, t, t)];
    var c := TimeCache(f1, t);
    assert CacheAfter(None, reqs[0], 0) == c;
    assert CacheAfter(Some(c), reqs[1], 0) == c;
    assert reqs[1..] == [reqs[1]] && reqs[1..][1..] == [];
    assert !NeedsRefresh(Some(c), reqs[1].checkedAt, 0);
    assert Probes(None, reqs, 0) == 1 + Probes(Some(c), reqs[1..], 0);
    assert Probes(Some(c), reqs[1..], 0) == 0 + Probes(Some(c), [], 0);
    assert FinalCache(None, reqs, 0) == FinalCache(Some(c), reqs[1..], 0);
    assert FinalCache(Some(c), reqs[1..], 0) == FinalCache(Some(c), [], 0) == Some(c);
    assert Stamps(Some(c), reqs[1..], 0) == [ServerTimeAt(Some(c), reqs[1], 0)] + Stamps(Some(c), [], 0);
  }

  /** With a maximum age of 0 and a clock that moves on between calls, every call fetches. */
  lemma {:induction false} ZeroMaxAgeAlwaysFetches(cache: Option<TimeCache>, reqs: seq<TimeRequest>)
    requires ClockAdvances(cache, reqs)
    ensures Probes(cache, reqs, 0) == |reqs|
    decreases |reqs|
  {
    if reqs != [] {
      var c := CacheAfter(cache, reqs[0], 0);
      assert c == TimeCache(reqs[0].fetchedServerMs, reqs[0].storedAt);
      assert ClockAdvances(Some(c), reqs[1..]) by {
        forall i | 0 < i < |reqs[1..]| ensures reqs[1..][i].checkedAt > reqs[1..][i - 1].storedAt {
          assert reqs[1..][i] == reqs[i + 1] && reqs[1..][i - 1] == reqs[i];
        }
      }
      ZeroMaxAgeAlwaysFetches(Some(c), reqs[1..]);
    }
  }

  /** Within the maximum age of a warm cache, no call fetches and every call reads the same cache. */
  lemma {:induction false} WarmRun(c: TimeCache, reqs: seq<TimeRequest>, maxAgeMs: int)
    requires forall i :: 0 <= i < |reqs| ==> reqs[i].checkedAt - c.localMs <= maxAgeMs
    ensures Probes(Some(c), reqs, maxAgeMs) == 0
    ensures FinalCache(Some(c), reqs, maxAgeMs) == Some(c)
    ensures forall i :: 0 <= i < |reqs| ==>
      Stamps(Some(c), reqs, maxAgeMs)[i] == c.serverMs + (reqs[i].returnedAt - c.localMs)
  {
    if reqs != [] {
      assert CacheAfter(Some(c), reqs[0], maxAgeMs) == c;
      assert forall i :: 0 <= i < |reqs[1..]| ==> reqs[1..][i] == reqs[i + 1];
      WarmRun(c, reqs[1..], maxAgeMs);
    }
  }

  /**
   * With a maximum age covering the whole session, only the first call fetches; every later call
   * returns the first fetched time plus the local clock's progress since it was stored.
   */
  lemma LongMaxAgeFetchesOnce(reqs: seq<TimeRequest>, maxAgeMs: int)
    requires |reqs| > 0
    requires forall i :: 0 < i < |reqs| ==> reqs[i].checkedAt - reqs[0].storedAt <= maxAgeMs
    ensures Probes(None, reqs, maxAgeMs) == 1
    ensures FinalCache(None, reqs, maxAgeMs) == Some(TimeCache(reqs[0].fetchedServerMs, reqs[0].storedAt))
    ensures forall i :: 0 <= i < |reqs| ==>
      Stamps(None, reqs, maxAgeMs)[i] == reqs[0].fetchedServerMs + (reqs[i].returnedAt - reqs[0].storedAt)
  {
    var c := TimeCache(reqs[0].fetchedServerMs, reqs[0].storedAt);
    assert CacheAfter(None, reqs[0], maxAgeMs) == c;
    assert forall i :: 0 <= i < |reqs[1..]| ==> reqs[1..][i] == reqs[i + 1];
    WarmRun(c, reqs[1..], maxAgeMs);
    var ts := Stamps(None, reqs, maxAgeMs);
    assert ts == [ServerTimeAt(None, reqs[0], maxAgeMs)] + Stamps(Some(c), reqs[1..], maxAgeMs);
    forall i | 0 < i < |reqs|
      ensures ts[i] == reqs[0].fetchedServerMs + (reqs[i].returnedAt - reqs[0].storedAt)
    {
      assert ts[i] == Stamps(Some(c), reqs[1..], maxAgeMs)[i - 1];
    }
  }

  // ---------------------------------------------------------------------------------------
  // Signed requests

  /** The signed POST a call sends; the HTTP exchange itself is not modelled. */
  datatype SignedRequest = SignedRequest(
    url: string,
    accessKey: string,
    accessSign: string,
    accessTimestamp: string,
    contentType: string,
    httpMethod: string,
    body: string)

  /** The server's check: the signature is the HMAC, under the secret, of the timestamp header then the body. */
  predicate SignatureValid(r: SignedRequest, secretKey: string, hmac: (string, string) -> string)
  {
    r.accessSign == hmac(secretKey, r.accessTimestamp + r.body)
  }

  /**
   * The request for a body at a timestamp: the HMAC is taken over the timestamp followed directly
   * by the body, the same timestamp goes in `access-timestamp`, and the body is sent unchanged.
   * `hmac(key, text)` stands for the hex digest of HMAC-SHA256.
   */
  function Sign(apiUrl: string, keyId: string, secretKey: string, timestamp: string, body: string,
                hmac: (string, string) -> string): (r: SignedRequest)
    ensures SignatureValid(r, secretKey, hmac)
    ensures r.url == apiUrl && r.accessKey == keyId && r.accessTimestamp == timestamp && r.body == body
    ensures r.contentType == "application/json" && r.httpMethod == "post"
  {
    var text := timestamp + body;
    SignedRequest(apiUrl, keyId, hmac(secretKey, text), timestamp, "application/json", "post", body)
  }

  /** The length of the longest prefix that an integer numeral could start with. */
  function NumeralLen(s: string): (n: nat)
    ensures n <= |s|
  {
    if s == [] || !('0' <= s[0] <= '9' || s[0] == '-') then 0 else 1 + NumeralLen(s[1..])
  }

  /**
   * The signed text needs no separator: when the body does not start with a digit (a JSON
   * object starts with '{'), the timestamp is exactly its longest numeral prefix.
   */
  lemma {:induction false} SignedTextSplits(n: int, body: string)
    requires body == [] || !('0' <= body[0] <= '9' || body[0] == '-')
    ensures var ts := DecimalString(n);
      NumeralLen(ts + body) == |ts| && (ts + body)[..|ts|] == ts && (ts + body)[|ts|..] == body &&
      ParseDecimal((ts + body)[..|ts|]) == Some(n)
  {
    var ts := DecimalString(n);
    NumeralPrefix(ts, body);
    DecimalRoundTrip(n);
    assert (ts + body)[..|ts|] == ts;
  }

  lemma {:induction false} NumeralPrefix(ts: string, body: string)
    requires forall i :: 0 <= i < |ts| ==> '0' <= ts[i] <= '9' || ts[i] == '-'
    requires body == [] || !('0' <= body[0] <= '9' || body[0] == '-')
    ensures NumeralLen(ts + body) == |ts|
  {
    if ts != [] {
      assert (ts + body)[1..] == ts[1..] + body;
      NumeralPrefix(ts[1..], body);
    }
  }

  // ---------------------------------------------------------------------------------------
  // The client object

  class TokensoftClient {
    const apiUrl: string
    const keyId: string
    const secretKey: string
    const opts: ClientOptions
    var timecache: Option<TimeCache>

    /** A client whose arguments passed `CheckArgs`; the cache starts cold. */
    constructor (apiUrl: string, keyId: string, secretKey: string, opts: ClientOptions)
      requires apiUrl != "" && keyId != "" && secretKey != ""
      ensures this.apiUrl == apiUrl && this.keyId == keyId && this.secretKey == secretKey
      ensures this.opts == opts && timecache == None
    {
      this.apiUrl := apiUrl;
      this.keyId := keyId;
      this.secretKey := secretKey;
      this.opts := opts;
      timecache := None;
    }

    /** `new TokensoftSDK(apiUrl, keyId, secretKey, opts)`: the checked construction, or the thrown message. */
    static method Create(apiUrl: string, keyId: string, secretKey: string, opts: Option<PartialOptions>)
      returns (r: Result<TokensoftClient, string>)
      ensures CheckArgs(apiUrl, keyId, secretKey, opts).Failure? ==>
        r == Failure(CheckArgs(apiUrl, keyId, secretKey, opts).error)
      ensures CheckArgs(apiUrl, keyId, secretKey, opts).Success? ==>
        r.Success? && fresh(r.value) &&
        r.value.apiUrl == apiUrl && r.value.keyId == keyId && r.value.secretKey == secretKey &&
        r.value.opts == CheckArgs(apiUrl, keyId, secretKey, opts).value && r.value.timecache == None
    {
      match CheckArgs(apiUrl, keyId, secretKey, opts)
      case Failure(msg) =>
        r := Failure(msg);
      case Success(o) =>
        var c := new TokensoftClient(apiUrl, keyId, secretKey, o);
        r := Success(c);
    }

    /**
     * `getServerTime`: refresh the cache from the server when it is cold, leave it when warm,
     * and return the cached server time advanced by the local clock, as a decimal string.
     */
    method GetServerTime(req: TimeRequest) returns (time: string)
      modifies this
      ensures timecache == Some(CacheAfter(old(timecache), req, opts.maxTimecacheAgeMs))
      ensures time == DecimalString(ServerTimeAt(old(timecache), req, opts.maxTimecacheAgeMs))
      ensures ParseDecimal(time) == Some(ServerTimeAt(old(timecache), req, opts.maxTimecacheAgeMs))
    {
      if timecache.None? || req.checkedAt - timecache.value.localMs > opts.maxTimecacheAgeMs {
        // the unsigned `{ time }` query is answered with req.fetchedServerMs
        timecache := Some(TimeCache(req.fetchedServerMs, req.storedAt));
      }
      time := DecimalString(timecache.value.serverMs + (req.returnedAt - timecache.value.localMs));
      DecimalRoundTrip(timecache.value.serverMs + (req.returnedAt - timecache.value.localMs));
    }

    /**
     * `sendRequest` up to the HTTP exchange: take the server time first, then sign the
     * timestamp followed by the body, and build the POST carrying that same timestamp.
     */
    method SendRequest(body: string, req: TimeRequest, hmac: (string, string) -> string)
      returns (out: SignedRequest)
      modifies this
      ensures timecache == Some(CacheAfter(old(timecache), req, opts.maxTimecacheAgeMs))
      ensures out == Sign(apiUrl, keyId, secretKey,
                          DecimalString(ServerTimeAt(old(timecache), req, opts.maxTimecacheAgeMs)), body, hmac)
      ensures SignatureValid(out, secretKey, hmac) && out.body == body
      ensures ParseDecimal(out.accessTimestamp) == Some(ServerTimeAt(old(timecache), req, opts.maxTimecacheAgeMs))
    {
      var serverTime := GetServerTime(req);
      out := Sign(apiUrl, keyId, secretKey, serverTime, body, hmac);
    }
  }
}
