/** How one proxied request feeds the cache: the context that its phases share, the collection of the upstream
    body, and the put at its end. */
module BodyCollection {
  import opened Wrappers
  import opened CacheTypes
  import opened CacheSpec
  import DomainLabels

  datatype Request = Request(host: Option<string>, verb: string, uri: string)

  datatype Encoding = Gzip | Brotli | Zstd

  /** What `get_cache` answered. */
  datatype LookupReply = FoundEntry | NoEntry | LookupError

  /** One call of `upstream_response_body_filter`. */
  datatype BodyCall = BodyCall(data: Option<Bytes>, eof: bool)

  datatype PutCall = PutCall(request: Request, response: Response, body: Bytes)

  // ---------- The cache key ----------

  /** `split(':').next()` */
  function BeforeColon(s: string): string {
    if s == "" || s[0] == ':' then "" else [s[0]] + BeforeColon(s[1..])
  }

  function HostName(request: Request): string {
    if request.host.None? then "" else DomainLabels.ToLowercase(BeforeColon(request.host.value))
  }

  /** `generate_cache_key` */
  function CacheKey(request: Request): string {
    HostName(request) + " " + request.verb + " " + request.uri
  }

  predicate Spaceless(s: string) {
    ' ' !in s
  }

  lemma LastSpaceSplits(a: string, b: string, x: string, y: string)
    requires a + " " + x == b + " " + y && Spaceless(x) && Spaceless(y)
    ensures a == b && x == y
  {
    var s := a + " " + x;
    assert s[|a|] == ' ' && s[|b|] == ' ';
    assert forall i :: |a| < i < |s| ==> s[i] == x[i - |a| - 1];
    assert forall i :: |b| < i < |s| ==> s[i] == y[i - |b| - 1];
    assert |a| == |b|;
    assert a == s[..|a|] == b;
    assert x == s[|a| + 1..] == y;
  }

  /** The host of a request without its port: up to the first colon, and empty if there is none. */
  predicate IsBareHost(request: Request, name: string) {
    match request.host
    case None => name == ""
    case Some(host) => IsBare(host, name)
  }

  predicate SameLetter(c: char, d: char) {
    c == d || ('A' <= c <= 'Z' && d as int == c as int + 32) || ('A' <= d <= 'Z' && c as int == d as int + 32)
  }

  predicate SameButForCase(a: string, b: string) {
    |a| == |b| && forall i :: 0 <= i < |a| ==> SameLetter(a[i], b[i])
  }

  predicate IsBare(s: string, name: string) {
    ':' !in name && (s == name || name + ":" <= s)
  }

  lemma {:induction false} BeforeColonIsBare(s: string)
    ensures IsBare(s, BeforeColon(s))
  {
    if s != "" && s[0] != ':' {
      BeforeColonIsBare(s[1..]);
      assert s == [s[0]] + s[1..];
    }
  }

  lemma {:induction false} BareIsBeforeColon(s: string, name: string)
    requires IsBare(s, name)
    ensures name == BeforeColon(s)
  {
    if s != "" {
      assert (name + ":")[0] == s[0] || name == s;
      assert s[0] in s;
      if s[0] != ':' {
        assert name == [s[0]] + name[1..];
        BareIsBeforeColon(s[1..], name[1..]);
      }
    }
  }

  lemma HostNameIsBare(request: Request, name: string)
    requires IsBareHost(request, name)
    ensures HostName(request) == DomainLabels.ToLowercase(name)
  {
    if request.host.Some? {
      BareIsBeforeColon(request.host.value, name);
    }
  }

  lemma LowerAgreesIff(x: string, y: string)
    ensures DomainLabels.ToLowercase(x) == DomainLabels.ToLowercase(y) <==> SameButForCase(x, y)
  {
    var a, b := DomainLabels.ToLowercase(x), DomainLabels.ToLowercase(y);
    if a == b {
      forall i | 0 <= i < |x| ensures SameLetter(x[i], y[i]) {
        assert a[i] == b[i];
      }
    }
  }

  /** The key has the host without its port, in lower case: that is what two requests must share. */
  lemma HostNamesAgreeIff(a: Request, b: Request, x: string, y: string)
    requires IsBareHost(a, x) && IsBareHost(b, y)
    ensures HostName(a) == HostName(b) <==> SameButForCase(x, y)
  {
    HostNameIsBare(a, x);
    HostNameIsBare(b, y);
    LowerAgreesIff(x, y);
  }

  /** Two requests share a cache key exactly when they agree in host (but for case and port), method and target. */
  lemma SameKeyIff(a: Request, b: Request, x: string, y: string)
    requires Spaceless(a.verb) && Spaceless(a.uri) && Spaceless(b.verb) && Spaceless(b.uri)
    requires IsBareHost(a, x) && IsBareHost(b, y)
    ensures CacheKey(a) == CacheKey(b) <==> SameButForCase(x, y) && a.verb == b.verb && a.uri == b.uri
  {
    HostNamesAgreeIff(a, b, x, y);
    if CacheKey(a) == CacheKey(b) {
      assert CacheKey(a) == (HostName(a) + " " + a.verb) + " " + a.uri;
      assert CacheKey(b) == (HostName(b) + " " + b.verb) + " " + b.uri;
      LastSpaceSplits(HostName(a) + " " + a.verb, HostName(b) + " " + b.verb, a.uri, b.uri);
      LastSpaceSplits(HostName(a), HostName(b), a.verb, b.verb);
    }
  }

  // ---------- The phases, on values ----------

  /** The fields of `StryvoContext` that have to do with the cache. */
  datatype Context = Context(
    status: Option<string>,
    collecting: bool,
    chunks: Option<seq<Bytes>>,
    request: Option<Request>,
    response: Option<Response>,
    encoding: Option<Encoding>)

  const NEW_CONTEXT := Context(None, false, Some([]), None, None, None)

  function AfterLookup(ctx: Context, request: Request, reply: LookupReply): Context {
    var seen := ctx.(request := Some(request));
    match reply
    case FoundEntry => seen.(status := Some("HIT"))
    case NoEntry => seen.(status := Some("MISS"), collecting := true)
    case LookupError => seen.(status := Some("ERROR"))
  }

  /** `process_cache_status` */
  function AfterStatus(ctx: Context, hasCache: bool, request: Request, response: Response, cacheable: bool): Context {
    if !hasCache then ctx
    else if ctx.status.Some? then
      if ctx.status == Some("MISS") && response.status == 200 then
        ctx.(collecting := true, response := Some(response))
      else ctx
    else if cacheable && response.status == 200 then
      ctx.(request := Some(request), response := Some(response), collecting := true)
    else ctx
  }

  function Concat(chunks: seq<Bytes>): Bytes {
    if chunks == [] then [] else Concat(chunks[..|chunks| - 1]) + chunks[|chunks| - 1]
  }

  /** `remove_header("content-encoding")` */
  function WithoutEncoding(headers: Headers): Headers {
    if headers == [] then []
    else if headers[0].0 == "content-encoding" then WithoutEncoding(headers[1..])
    else [headers[0]] + WithoutEncoding(headers[1..])
  }

  function ToCache(response: Response): Response {
    response.(headers := WithoutEncoding(response.headers))
  }

  /** The collecting half of the body filter. */
  function Collected(ctx: Context, data: Option<Bytes>): Context {
    if data.Some? && data.value != [] && ctx.collecting && ctx.chunks.Some? then
      ctx.(chunks := Some(ctx.chunks.value + [data.value]))
    else ctx
  }

  /** The put that the end of the body causes. */
  function PutAtEnd(ctx: Context, hasCache: bool): Option<PutCall> {
    if ctx.collecting && ctx.chunks.Some? && ctx.request.Some? && ctx.response.Some? && ctx.chunks.value != []
       && hasCache
    then Some(PutCall(ctx.request.value, ToCache(ctx.response.value), Concat(ctx.chunks.value)))
    else None
  }

  /** `upstream_response_body_filter` */
  function AfterBody(ctx: Context, hasCache: bool, call: BodyCall): (Context, seq<PutCall>) {
    var got := Collected(ctx, call.data);
    if call.eof && got.collecting then
      (got.(collecting := false, request := None, response := None, chunks := None),
       var put := PutAtEnd(got, hasCache); if put.Some? then [put.value] else [])
    else (got, [])
  }

  function AfterBodies(ctx: Context, hasCache: bool, calls: seq<BodyCall>): (Context, seq<PutCall>) {
    if calls == [] then (ctx, [])
    else
      var (before, puts) := AfterBodies(ctx, hasCache, calls[..|calls| - 1]);
      var (after, more) := AfterBody(before, hasCache, calls[|calls| - 1]);
      (after, puts + more)
  }

  // ---------- The objects ----------

  class StryvoContext {
    var cacheStatus: Option<string>
    var shouldCacheResponse: bool
    var cacheBody: Option<seq<Bytes>>
    var cacheReqHeader: Option<Request>
    var cacheRespHeader: Option<Response>
    var compressionEncoding: Option<Encoding>

    function Value(): Context
      reads this
    {
      Context(cacheStatus, shouldCacheResponse, cacheBody, cacheReqHeader, cacheRespHeader, compressionEncoding)
    }

    /** `new_ctx` */
    constructor ()
      ensures Value() == NEW_CONTEXT
    {
      cacheStatus, shouldCacheResponse, cacheBody := None, false, Some([]);
      cacheReqHeader, cacheRespHeader, compressionEncoding := None, None, None;
    }
  }

  class StryvoProxyService {
    const hasCache: bool
    /** The puts that were spawned. */
    var puts: seq<PutCall>

    constructor (hasCache: bool)
      ensures this.hasCache == hasCache && puts == []
    {
      this.hasCache := hasCache;
      puts := [];
    }

    /** `process_cache_lookup`; the answer is whether the request ends here. */
    method ProcessCacheLookup(ctx: StryvoContext, request: Request, reply: LookupReply) returns (served: bool)
      modifies ctx
      ensures ctx.Value() == AfterLookup(old(ctx.Value()), request, reply)
      ensures served <==> reply == FoundEntry
      ensures ctx.cacheReqHeader == Some(request)
      ensures ctx.cacheStatus ==
        Some(if reply == FoundEntry then "HIT" else if reply == NoEntry then "MISS" else "ERROR")
      ensures ctx.shouldCacheResponse <==> old(ctx.shouldCacheResponse) || reply == NoEntry
      ensures ctx.cacheBody == old(ctx.cacheBody) && ctx.cacheRespHeader == old(ctx.cacheRespHeader)
    {
      ctx.cacheReqHeader := Some(request);
      match reply {
        case FoundEntry =>
          ctx.cacheStatus := Some("HIT");
          return true;
        case NoEntry =>
          ctx.cacheStatus := Some("MISS");
          ctx.shouldCacheResponse := true;
          return false;
        case LookupError =>
          ctx.cacheStatus := Some("ERROR");
          return false;
      }
    }

    /** `process_cache_status`; `cacheable` is what `is_cacheable` says of the two headers. */
    method ProcessCacheStatus(ctx: StryvoContext, request: Request, response: Response, cacheable: bool)
      returns (shown: string)
      modifies ctx
      ensures ctx.Value() == AfterStatus(old(ctx.Value()), hasCache, request, response, cacheable)
      ensures shown ==
        if !hasCache then "BYPASS"
        else if old(ctx.cacheStatus).Some? then old(ctx.cacheStatus).value
        else if cacheable && response.status == 200 then "MISS" else "BYPASS"
      ensures ctx.cacheStatus == old(ctx.cacheStatus) && ctx.cacheBody == old(ctx.cacheBody)
      ensures shown == "MISS" && response.status == 200 ==>
        ctx.shouldCacheResponse && ctx.cacheRespHeader == Some(response)
      ensures shown != "MISS" || response.status != 200 ==> ctx.shouldCacheResponse == old(ctx.shouldCacheResponse)
    {
      if !hasCache {
        return "BYPASS";
      }
      if ctx.cacheStatus.Some? {
        if ctx.cacheStatus.value == "MISS" && response.status == 200 {
          ctx.shouldCacheResponse := true;
          ctx.cacheRespHeader := Some(response);
        }
        return ctx.cacheStatus.value;
      }
      if cacheable && response.status == 200 {
        ctx.cacheReqHeader := Some(request);
        ctx.cacheRespHeader := Some(response);
        ctx.shouldCacheResponse := true;
        return "MISS";
      }
      return "BYPASS";
    }

    /** `upstream_response_body_filter`: what goes on to the client is `sent`. */
    method UpstreamResponseBodyFilter(
      ctx: StryvoContext, call: BodyCall, compress: (Bytes, Encoding) -> Option<Bytes>)
      returns (sent: Option<Bytes>)
      modifies ctx, this`puts
      ensures ctx.Value() == AfterBody(old(ctx.Value()), hasCache, call).0
      ensures puts == old(puts) + AfterBody(old(ctx.Value()), hasCache, call).1
      ensures sent ==
        if call.data.Some? && call.data.value != [] && old(ctx.compressionEncoding).Some?
           && compress(call.data.value, old(ctx.compressionEncoding).value).Some?
        then compress(call.data.value, old(ctx.compressionEncoding).value) else call.data
      ensures call.eof && old(ctx.shouldCacheResponse) ==>
        !ctx.shouldCacheResponse && ctx.cacheReqHeader == None && ctx.cacheRespHeader == None && ctx.cacheBody == None
      ensures !call.eof || !old(ctx.shouldCacheResponse) ==> puts == old(puts)
      ensures |puts| <= |old(puts)| + 1
    {
      sent := call.data;
      if call.data.Some? {
        if ctx.shouldCacheResponse && ctx.cacheBody.Some? && call.data.value != [] {
          ctx.cacheBody := Some(ctx.cacheBody.value + [call.data.value]);
        }
        if ctx.compressionEncoding.Some? && call.data.value != [] {
          var compressed := compress(call.data.value, ctx.compressionEncoding.value);
          if compressed.Some? {
            sent := compressed;
          }
        }
      }
      if call.eof && ctx.shouldCacheResponse {
        if ctx.cacheBody.Some? && ctx.cacheReqHeader.Some? && ctx.cacheRespHeader.Some? && ctx.cacheBody.value != [] {
          var body := Drain(ctx.cacheBody.value);
          if hasCache {
            puts := puts + [PutCall(ctx.cacheReqHeader.value, ToCache(ctx.cacheRespHeader.value), body)];
          }
        }
        ctx.shouldCacheResponse := false;
        ctx.cacheReqHeader := None;
        ctx.cacheRespHeader := None;
        ctx.cacheBody := None;
      }
    }

    static method Drain(chunks: seq<Bytes>) returns (body: Bytes)
      ensures body == Concat(chunks)
    {
      body := [];
      for i := 0 to |chunks|
        invariant body == Concat(chunks[..i])
      {
        assert chunks[..i + 1][..i] == chunks[..i];
        body := body + chunks[i];
      }
      assert chunks[..|chunks|] == chunks;
    }
  }

  // ---------- One response ----------

  /** Everything that arrived, up to the first end of the body. */
  function Arrived(calls: seq<BodyCall>): Bytes {
    if calls == [] then []
    else
      var n := |calls| - 1;
      if Ends(calls[..n]) || calls[n].data.None? then Arrived(calls[..n]) else Arrived(calls[..n]) + calls[n].data.value
  }

  predicate Ends(calls: seq<BodyCall>) {
    exists k :: 0 <= k < |calls| && calls[k].eof
  }

  lemma EndsAppend(calls: seq<BodyCall>)
    requires calls != []
    ensures Ends(calls) <==> Ends(calls[..|calls| - 1]) || calls[|calls| - 1].eof
  {
  }

  /** What collecting leaves: until the end the chunks that have arrived, afterwards nothing but the one put. */
  ghost predicate CollectedSoFar(
    ctx: Context, hasCache: bool, calls: seq<BodyCall>, after: Context, puts: seq<PutCall>)
  {
    if Ends(calls) then
      && !after.collecting
      && puts == if hasCache && ctx.request.Some? && ctx.response.Some? && Arrived(calls) != []
                 then [PutCall(ctx.request.value, ToCache(ctx.response.value), Arrived(calls))] else []
    else
      && puts == [] && after == ctx.(chunks := after.chunks) && after.chunks.Some?
      && Concat(after.chunks.value) == Arrived(calls) && (after.chunks.value == [] <==> Arrived(calls) == [])
  }

  lemma {:induction false} CollectingKeepsArrived(ctx: Context, hasCache: bool, calls: seq<BodyCall>)
    requires ctx.collecting && ctx.chunks == Some([])
    ensures var (after, puts) := AfterBodies(ctx, hasCache, calls); CollectedSoFar(ctx, hasCache, calls, after, puts)
    decreases |calls|
  {
    if calls != [] {
      hide CollectedSoFar, AfterBody;
      var n := |calls| - 1;
      CollectingKeepsArrived(ctx, hasCache, calls[..n]);
      var (before, puts) := AfterBodies(ctx, hasCache, calls[..n]);
      OneMoreCall(ctx, hasCache, calls, before, puts);
    }
  }

  lemma OneMoreCall(ctx: Context, hasCache: bool, calls: seq<BodyCall>, before: Context, puts: seq<PutCall>)
    requires ctx.collecting && calls != []
    requires CollectedSoFar(ctx, hasCache, calls[..|calls| - 1], before, puts)
    ensures var (after, more) := AfterBody(before, hasCache, calls[|calls| - 1]);
      CollectedSoFar(ctx, hasCache, calls, after, puts + more)
  {
    EndsAppend(calls);
    if !Ends(calls[..|calls| - 1]) {
      OneMoreChunk(ctx, calls, before);
      hide Collected, Arrived, Concat, Ends;
    }
  }

  lemma OneMoreChunk(ctx: Context, calls: seq<BodyCall>, before: Context)
    requires ctx.collecting && calls != [] && !Ends(calls[..|calls| - 1])
    requires before == ctx.(chunks := before.chunks) && before.chunks.Some?
    requires Concat(before.chunks.value) == Arrived(calls[..|calls| - 1])
    requires before.chunks.value == [] <==> Arrived(calls[..|calls| - 1]) == []
    ensures var got := Collected(before, calls[|calls| - 1].data);
      && got == ctx.(chunks := got.chunks) && got.chunks.Some?
      && Concat(got.chunks.value) == Arrived(calls) && (got.chunks.value == [] <==> Arrived(calls) == [])
  {
    var n, chunks := |calls| - 1, before.chunks.value;
    var data := calls[n].data;
    if data.Some? && data.value != [] {
      assert Concat(chunks + [data.value]) == Concat(chunks) + data.value by {
        hide Arrived, Ends;
        assert (chunks + [data.value])[..|chunks|] == chunks;
      }
      hide Concat, Ends;
      assert Arrived(calls) == Arrived(calls[..n]) + data.value;
    } else {
      hide Concat, Ends;
      assert Arrived(calls) == Arrived(calls[..n]);
    }
  }

  lemma {:induction false} NotCollectingPutsNothing(ctx: Context, hasCache: bool, calls: seq<BodyCall>)
    requires !ctx.collecting
    ensures AfterBodies(ctx, hasCache, calls).0 == ctx && AfterBodies(ctx, hasCache, calls).1 == []
    decreases |calls|
  {
    if calls != [] {
      NotCollectingPutsNothing(ctx, hasCache, calls[..|calls| - 1]);
    }
  }

  /** For any chunking of one upstream response there is at most one put, and there is one exactly if the lookup
      missed, the status is 200, the body has ended and is not empty. It stores the body as it arrived, before any
      compression, for the request that was looked up. What `is_cacheable` says plays no part. */
  lemma OnePutPerResponse(
    hasCache: bool, request: Request, reply: LookupReply, response: Response, cacheable: bool,
    encoding: Option<Encoding>, calls: seq<BodyCall>)
    ensures
      var looked := if hasCache then AfterLookup(NEW_CONTEXT, request, reply) else NEW_CONTEXT;
      var ctx := AfterStatus(looked, hasCache, request, response, cacheable).(encoding := encoding);
      AfterBodies(ctx, hasCache, calls).1 ==
        if hasCache && reply == NoEntry && response.status == 200 && Ends(calls) && Arrived(calls) != []
        then [PutCall(request, ToCache(response), Arrived(calls))] else []
  {
    var looked := if hasCache then AfterLookup(NEW_CONTEXT, request, reply) else NEW_CONTEXT;
    var ctx := AfterStatus(looked, hasCache, request, response, cacheable).(encoding := encoding);
    if ctx.collecting {
      CollectingKeepsArrived(ctx, hasCache, calls);
    } else {
      NotCollectingPutsNothing(ctx, hasCache, calls);
    }
  }

  lemma {:induction false} OnlyEncodingIsRemoved(headers: Headers, name: string)
    ensures HeaderValue(WithoutEncoding(headers), name) ==
            if name == "content-encoding" then None else HeaderValue(headers, name)
  {
    if headers != [] {
      OnlyEncodingIsRemoved(headers[1..], name);
      if headers[0].0 != "content-encoding" {
        assert WithoutEncoding(headers)[1..] == WithoutEncoding(headers[1..]);
      }
    }
  }

  /** So an entry that this service stores never records an original encoding; and whether `no-store` keeps it out
      is decided by the upstream's own header. */
  lemma PutsCarryNoEncoding(config: Config, response: Response, raw: Bytes, key: string, now: int)
    ensures NewMetadata(config, key, ToCache(response), raw, now).record.originalEncoding == None
    ensures NoStore(ToCache(response)) <==> NoStore(response)
  {
    OnlyEncodingIsRemoved(response.headers, "content-encoding");
    OnlyEncodingIsRemoved(response.headers, "cache-control");
  }
}
