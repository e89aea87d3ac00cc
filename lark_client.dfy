/**
 * The client of the remote table service: a cached tenant access token, a
 * cache of the object tokens that wiki tokens resolve to, the upload of
 * records in chunks of 500, and the simple client that checks its
 * preconditions and the records before uploading them under their display
 * labels.
 *
 * The network is a `Transport` that answers each request with the next of a
 * list of scripted replies and logs what was sent; the clock is the integer
 * `now`, in whole seconds since the start of year 1 (where Python's
 * `datetime` begins), which stays fixed during one call.
 */
module LarkClient {
  import opened Wrappers
  import opened Text
  import opened Values
  import opened Formatter

  // ---------------------------------------------------------------------
  // The network
  // ---------------------------------------------------------------------

  /** What the client sends; `bearer` is the token in the `Authorization` header. */
  datatype Request =
    | TokenRequest(appId: string, appSecret: string)
    | NodeRequest(bearer: string, wikiToken: string)
    | CreateRequest(bearer: string, objToken: string, tableId: string, records: seq<map<string, Value>>)
    | FieldsRequest(bearer: string, objToken: string, tableId: string)

  /**
   * What comes back: an exception raised by the HTTP layer (timeout,
   * connection error), or an answer with its status, its body text and the
   * body parsed as JSON (`Err` with the decoder's message when it is not JSON).
   */
  datatype Reply =
    | Raised(error: string)
    | Answer(status: int, text: string, json: Result<Value, string>)

  const NoServerMsg := "Connection refused"

  /** The reply the server gives next: the first scripted one, or a refused connection. */
  function NextReply(pending: seq<Reply>): Reply {
    if pending == [] then Raised(NoServerMsg) else pending[0]
  }

  function AfterReply(pending: seq<Reply>): seq<Reply> {
    if pending == [] then [] else pending[1..]
  }

  /** The remote service: scripted replies, consumed in order, and the log of requests. */
  class Transport {
    var pending: seq<Reply>
    var sent: seq<Request>

    constructor(replies: seq<Reply>)
      ensures pending == replies && sent == []
    {
      pending := replies;
      sent := [];
    }

    method Send(req: Request) returns (reply: Reply)
      modifies this
      ensures sent == old(sent) + [req]
      ensures reply == NextReply(old(pending)) && pending == AfterReply(old(pending))
    {
      reply := NextReply(pending);
      pending := AfterReply(pending);
      sent := sent + [req];
    }
  }

  /** A create request as the table sees it: the base, the table and the records. */
  datatype Upload = Upload(objToken: string, tableId: string, records: seq<map<string, Value>>)

  /** The create requests in a log, in order. */
  function Uploads(log: seq<Request>): seq<Upload>
    decreases |log|
  {
    if log == [] then []
    else
      var last := log[|log| - 1];
      Uploads(log[..|log| - 1]) + (if last.CreateRequest? then [Upload(last.objToken, last.tableId, last.records)] else [])
  }

  /** The record batches `batches`, each sent to the table `tableId` of the base `objToken`. */
  function ToTable(objToken: string, tableId: string, batches: seq<seq<map<string, Value>>>): (r: seq<Upload>)
    ensures |r| == |batches|
    ensures forall k :: 0 <= k < |r| ==> r[k].objToken == objToken && r[k].tableId == tableId
    decreases |batches|
  {
    if batches == [] then []
    else ToTable(objToken, tableId, batches[..|batches| - 1]) + [Upload(objToken, tableId, batches[|batches| - 1])]
  }

  lemma ToTableSnoc(objToken: string, tableId: string, batches: seq<seq<map<string, Value>>>, b: seq<map<string, Value>>)
    ensures ToTable(objToken, tableId, batches + [b]) == ToTable(objToken, tableId, batches) + [Upload(objToken, tableId, b)]
  {
    assert (batches + [b])[..|batches|] == batches;
  }

  /** One more batch, sent or not, extends the uploads by its own upload or by nothing. */
  lemma ToTableStep(objToken: string, tableId: string, before: seq<Upload>, batches: seq<seq<map<string, Value>>>,
                    b: seq<map<string, Value>>, sent: bool)
    ensures before + ToTable(objToken, tableId, batches) + (if sent then [Upload(objToken, tableId, b)] else [])
            == before + ToTable(objToken, tableId, batches + (if sent then [b] else []))
  {
    if sent {
      ToTableSnoc(objToken, tableId, batches, b);
    } else {
      assert batches + [] == batches;
    }
  }

  /** The records of the `k`-th batch are the `k`-th upload's records. */
  lemma {:induction false} ToTableRecords(objToken: string, tableId: string, batches: seq<seq<map<string, Value>>>, k: nat)
    requires k < |batches|
    ensures ToTable(objToken, tableId, batches)[k] == Upload(objToken, tableId, batches[k])
    decreases |batches|
  {
    if k < |batches| - 1 {
      ToTableRecords(objToken, tableId, batches[..|batches| - 1], k);
    }
  }

  function LastSent(log: seq<Request>): Request
    requires log != []
  {
    log[|log| - 1]
  }

  lemma UploadsSnoc(log: seq<Request>, req: Request)
    ensures Uploads(log + [req]) == Uploads(log) + (if req.CreateRequest? then [Upload(req.objToken, req.tableId, req.records)] else [])
  {
    assert (log + [req])[..|log|] == log;
  }

  // ---------------------------------------------------------------------
  // Reading JSON answers
  // ---------------------------------------------------------------------

  /** The `TypeError` message for iterating over a value that cannot be iterated. */
  function NotIterableMsg(v: Value): string {
    "'" + TypeName(v) + "' object is not iterable"
  }

  /** The JSON object of a successful answer: status 200, a JSON dict, and `code` equal to 0. */
  predicate Accepted(reply: Reply) {
    reply.Answer? && reply.status == 200 && reply.json.Ok? && reply.json.value.VDict?
    && IsZero(Get(reply.json.value.entries, "code", VNone))
  }

  // ---------------------------------------------------------------------
  // LarkAuthManager
  // ---------------------------------------------------------------------

  /** The token cache: `_tenant_access_token` (`None` at first) and `_token_expire_time`. */
  datatype TokenCache = TokenCache(token: Value, expiry: Option<int>)

  /** The cached token is returned without a request: not forced, a truthy token, and not yet expired. */
  predicate ServedFromCache(c: TokenCache, forceRefresh: bool, now: int) {
    !forceRefresh && Truthy(c.token) && c.expiry.Some? && now < c.expiry.value
  }

  /** The last whole second of year 9999, where `datetime` ends. */
  const MaxTime := 315537897599

  /**
   * `datetime.now() + timedelta(seconds=s)` is a `datetime`, with `now + s`
   * the whole seconds of the sum: it is neither before year 1 nor after year
   * 9999 (otherwise it raises `OverflowError`, as does a `timedelta` out of
   * its own, wider range).
   */
  predicate InDateRange(t: int) {
    0 <= t <= MaxTime
  }

  /**
   * How a token request ends: a token with its expiry; nothing (an error
   * status, a non-zero code, a malformed answer, an exception); or a token
   * that was stored before computing its expiry raised, because `expire` was
   * not a number or put the expiry outside the range of `datetime`.
   */
  datatype TokenFetch = TokenOk(token: Value, expiry: int) | TokenFail | TokenPartial(token: Value)

  /** The seconds an accepted token lives: `expire`, 7200 when absent; `None` when it is not a number. */
  function ExpireSeconds(m: map<string, Value>): (r: Option<int>)
    ensures "expire" !in m ==> r == Some(7200)
    ensures "expire" in m && m["expire"].VInt? ==> r == Some(m["expire"].i)
    ensures r.None? <==> "expire" in m && !m["expire"].VInt? && !m["expire"].VBool?
  {
    match Get(m, "expire", VInt(7200))
    case VInt(x) => Some(x)
    case VBool(b) => Some(if b then 1 else 0)
    case _ => None
  }

  /** The reading of the answer to a token request at time `now`. */
  function InterpretToken(reply: Reply, now: int): (r: TokenFetch)
    ensures r.TokenOk? || r.TokenPartial? <==> Accepted(reply) && "tenant_access_token" in reply.json.value.entries
    ensures r.TokenOk? ==> var m := reply.json.value.entries;
              r.token == m["tenant_access_token"] && ExpireSeconds(m).Some?
              && r.expiry == now + ExpireSeconds(m).value - 300 && InDateRange(r.expiry)
    ensures r.TokenPartial? ==> var m := reply.json.value.entries;
              r.token == m["tenant_access_token"]
              && (ExpireSeconds(m).None? || !InDateRange(now + ExpireSeconds(m).value - 300))
  {
    if !Accepted(reply) then TokenFail
    else
      var m := reply.json.value.entries;
      if "tenant_access_token" !in m then TokenFail
      else match ExpireSeconds(m)
        case Some(x) =>
          if InDateRange(now + x - 300) then TokenOk(m["tenant_access_token"], now + x - 300)
          else TokenPartial(m["tenant_access_token"])
        case None => TokenPartial(m["tenant_access_token"])
  }

  /**
   * An `expire` that puts the expiry outside the range of `datetime` leaves
   * the new token cached under the old expiry, and the call returns `None`.
   */
  lemma ExpiryOverflow(c: TokenCache, t: Value, x: int, now: int)
    requires !InDateRange(now + x - 300)
    ensures var reply := Answer(200, "", Ok(VDict(map["code" := VInt(0), "tenant_access_token" := t, "expire" := VInt(x)])));
            AfterFetch(c, InterpretToken(reply, now)) == TokenCache(t, c.expiry)
            && FetchResult(InterpretToken(reply, now)) == VNone
  {
  }

  /** The cache after a request. */
  function AfterFetch(c: TokenCache, f: TokenFetch): (r: TokenCache)
    ensures f.TokenFail? ==> r == c
    ensures f.TokenOk? ==> r == TokenCache(f.token, Some(f.expiry))
    ensures f.TokenPartial? ==> r.token == f.token && r.expiry == c.expiry
  {
    match f
    case TokenOk(t, e) => TokenCache(t, Some(e))
    case TokenFail => c
    case TokenPartial(t) => TokenCache(t, c.expiry)
  }

  /** What a request returns: the new token, or `None`. */
  function FetchResult(f: TokenFetch): (r: Value)
    ensures f.TokenOk? ==> r == f.token
    ensures !f.TokenOk? ==> r == VNone
  {
    if f.TokenOk? then f.token else VNone
  }

  /**
   * A truthy token fetched with more than 300 seconds to live is served from
   * the cache by every later call that is not forced, until it expires.
   */
  lemma FetchedTokenIsCached(c: TokenCache, reply: Reply, now: int, later: int)
    requires InterpretToken(reply, now).TokenOk? && Truthy(InterpretToken(reply, now).token)
    requires now <= later < now + ExpireSeconds(reply.json.value.entries).value - 300
    ensures ServedFromCache(AfterFetch(c, InterpretToken(reply, now)), false, later)
  {
  }

  /** Each completed fetch replaces the cache; a failed one leaves it as it was. */
  lemma FailedFetchKeepsCache(c: TokenCache, reply: Reply, now: int)
    requires !Accepted(reply)
    ensures AfterFetch(c, InterpretToken(reply, now)) == c
    ensures FetchResult(InterpretToken(reply, now)) == VNone
  {
  }

  class AuthManager {
    const appId: string
    const appSecret: string
    const net: Transport
    var token: Value
    var expireTime: Option<int>

    constructor(appId: string, appSecret: string, net: Transport)
      ensures this.appId == appId && this.appSecret == appSecret && this.net == net
      ensures token == VNone && expireTime == None
    {
      this.appId := appId;
      this.appSecret := appSecret;
      this.net := net;
      token := VNone;
      expireTime := None;
    }

    function Cache(): TokenCache
      reads this
    {
      TokenCache(token, expireTime)
    }

    /**
     * `get_tenant_access_token`: the cached token when it may be served;
     * otherwise one token request, whose answer updates the cache.
     */
    method GetTenantAccessToken(forceRefresh: bool, now: int) returns (r: Value)
      modifies this, net
      ensures ServedFromCache(old(Cache()), forceRefresh, now) ==>
                r == old(token) && Cache() == old(Cache()) && unchanged(net)
      ensures !ServedFromCache(old(Cache()), forceRefresh, now) ==>
                var f := InterpretToken(NextReply(old(net.pending)), now);
                Cache() == AfterFetch(old(Cache()), f) && r == FetchResult(f)
                && net.sent == old(net.sent) + [TokenRequest(appId, appSecret)]
                && net.pending == AfterReply(old(net.pending))
      ensures Uploads(net.sent) == Uploads(old(net.sent))
      ensures (r, EnvOf(this)) == TokenRun(old(EnvOf(this)), forceRefresh, now)
    {
      if ServedFromCache(Cache(), forceRefresh, now) {
        return token;
      }
      UploadsSnoc(net.sent, TokenRequest(appId, appSecret));
      var reply := net.Send(TokenRequest(appId, appSecret));
      var f := InterpretToken(reply, now);
      match f
      case TokenOk(t, e) =>
        token := t;
        expireTime := Some(e);
        r := t;
      case TokenPartial(t) =>
        token := t;
        r := VNone;
      case TokenFail =>
        r := VNone;
    }

    /** `is_token_valid`: a token is held (any value but `None`) and has not expired. */
    predicate IsTokenValid(now: int)
      reads this
    {
      token != VNone && expireTime.Some? && now < expireTime.value
    }
  }

  /** What the outcome of a call depends on: the token cache and the replies still to come. */
  datatype Env = Env(cache: TokenCache, pending: seq<Reply>)

  function EnvOf(a: AuthManager): Env
    reads a, a.net
  {
    Env(a.Cache(), a.net.pending)
  }

  /** `get_tenant_access_token` on a state: the token it returns and the state it leaves. */
  function TokenRun(e: Env, forceRefresh: bool, now: int): (Value, Env) {
    if ServedFromCache(e.cache, forceRefresh, now) then (e.cache.token, e)
    else
      var f := InterpretToken(NextReply(e.pending), now);
      (FetchResult(f), Env(AfterFetch(e.cache, f), AfterReply(e.pending)))
  }

  /**
   * A request that needs a token: the token is obtained first, and the
   * request is sent only when the token is truthy. The reply, when it was
   * sent, and the state afterwards.
   */
  function AuthorisedRun(e: Env, now: int): (Option<Reply>, Env) {
    var (token, e1) := TokenRun(e, false, now);
    if !Truthy(token) then (None, e1)
    else (Some(NextReply(e1.pending)), Env(e1.cache, AfterReply(e1.pending)))
  }

  /** With a token that may be served, the request goes out at once and gets the first scripted reply. */
  lemma AuthorisedWithCachedToken(e: Env, now: int)
    requires ServedFromCache(e.cache, false, now) && e.pending != []
    ensures AuthorisedRun(e, now) == (Some(e.pending[0]), Env(e.cache, e.pending[1..]))
  {
  }

  /** Without a cached token, a refused token request means the request itself is never sent. */
  lemma AuthorisedWithRefusedToken(e: Env, now: int)
    requires !ServedFromCache(e.cache, false, now) && !Accepted(NextReply(e.pending))
    ensures AuthorisedRun(e, now) == (None, Env(e.cache, AfterReply(e.pending)))
  {
    FailedFetchKeepsCache(e.cache, NextReply(e.pending), now);
  }

  /** Being served from the cache implies validity; an empty-string token is valid yet never served. */
  lemma CachedIsValid(c: TokenCache, now: int)
    ensures ServedFromCache(c, false, now) ==> c.token != VNone && c.expiry.Some? && now < c.expiry.value
    ensures c.token == VStr("") ==> !ServedFromCache(c, false, now)
  {
  }

  // ---------------------------------------------------------------------
  // LarkTableManager
  // ---------------------------------------------------------------------

  /** `result['data']['node']['obj_token']` of an accepted answer; `None` when a lookup fails or raises. */
  function InterpretNode(reply: Reply): (r: Option<Value>)
    ensures r.Some? ==> Accepted(reply)
    ensures r.Some? <==> Accepted(reply) && NodePath(reply.json.value.entries)
    ensures r.Some? ==> r.value == reply.json.value.entries["data"].entries["node"].entries["obj_token"]
  {
    if !Accepted(reply) then None
    else
      var m := reply.json.value.entries;
      if NodePath(m) then Some(m["data"].entries["node"].entries["obj_token"]) else None
  }

  /** The subscripts `['data']['node']['obj_token']` all succeed. */
  predicate NodePath(m: map<string, Value>) {
    "data" in m && m["data"].VDict? && "node" in m["data"].entries
    && m["data"].entries["node"].VDict? && "obj_token" in m["data"].entries["node"].entries
  }

  /**
   * `get_obj_token` on a cache of resolutions and a state: a cached wiki
   * token is answered with no request; otherwise the node is looked up with
   * a token, and only a lookup that yields an object token is cached. The
   * object token (`None` on failure), the cache and the state afterwards.
   */
  function ResolveRun(cache: map<string, Value>, e: Env, wikiToken: string, now: int): (Value, map<string, Value>, Env) {
    if wikiToken in cache then (cache[wikiToken], cache, e)
    else
      var (lookup, e1) := AuthorisedRun(e, now);
      if lookup.Some? && InterpretNode(lookup.value).Some? then
        var v := InterpretNode(lookup.value).value;
        (v, cache[wikiToken := v], e1)
      else (VNone, cache, e1)
  }

  /** A successful resolution is cached: asking again answers the same with no request, whatever the state. */
  lemma ResolveCached(cache: map<string, Value>, e: Env, w: string, now: int, e': Env, later: int)
    requires w in ResolveRun(cache, e, w, now).1
    ensures var (v, c, _) := ResolveRun(cache, e, w, now);
            ResolveRun(c, e', w, later) == (v, c, e')
  {
  }

  /** An uncached wiki token with a servable access token is looked up using the first scripted reply. */
  lemma ResolveLooksUp(cache: map<string, Value>, e: Env, w: string, now: int)
    requires w !in cache && ServedFromCache(e.cache, false, now) && e.pending != []
    ensures var (v, c, e1) := ResolveRun(cache, e, w, now);
            e1 == Env(e.cache, e.pending[1..])
            && (InterpretNode(e.pending[0]).Some? ==> v == InterpretNode(e.pending[0]).value && c == cache[w := v])
            && (InterpretNode(e.pending[0]).None? ==> v == VNone && c == cache)
  {
    AuthorisedWithCachedToken(e, now);
  }

  class TableManager {
    const auth: AuthManager
    var objTokens: map<string, Value>

    constructor(auth: AuthManager)
      ensures this.auth == auth && objTokens == map[]
    {
      this.auth := auth;
      objTokens := map[];
    }

    /**
     * `get_obj_token`: a cached resolution is returned with no request;
     * otherwise a token is obtained and the wiki node looked up, and only a
     * lookup that succeeds is cached. `lookup` is the reply to the lookup,
     * when one was sent.
     */
    method GetObjToken(wikiToken: string, now: int) returns (r: Value, ghost lookup: Option<Reply>)
      modifies this, auth, auth.net
      ensures wikiToken in old(objTokens) ==>
                r == old(objTokens)[wikiToken] && objTokens == old(objTokens)
                && unchanged(auth) && unchanged(auth.net) && lookup.None?
      ensures wikiToken !in old(objTokens) && lookup.Some? && InterpretNode(lookup.value).Some? ==>
                r == InterpretNode(lookup.value).value && objTokens == old(objTokens)[wikiToken := r]
      ensures wikiToken !in old(objTokens) && (lookup.None? || InterpretNode(lookup.value).None?) ==>
                r == VNone && objTokens == old(objTokens)
      ensures lookup.Some? ==> |auth.net.sent| > 0 && LastSent(auth.net.sent).NodeRequest?
                               && LastSent(auth.net.sent).wikiToken == wikiToken
      ensures Uploads(auth.net.sent) == Uploads(old(auth.net.sent))
      ensures (r, objTokens, EnvOf(auth)) == ResolveRun(old(objTokens), old(EnvOf(auth)), wikiToken, now)
      ensures lookup == (if wikiToken in old(objTokens) then None else AuthorisedRun(old(EnvOf(auth)), now).0)
    {
      if wikiToken in objTokens {
        return objTokens[wikiToken], None;
      }
      ghost var c0 := objTokens;
      ghost var e0 := EnvOf(auth);
      var token := auth.GetTenantAccessToken(false, now);
      ghost var e1 := EnvOf(auth);
      assert (token, e1) == TokenRun(e0, false, now);
      if !Truthy(token) {
        assert ResolveRun(c0, e0, wikiToken, now) == (VNone, c0, e1);
        return VNone, None;
      }
      UploadsSnoc(auth.net.sent, NodeRequest(Str(token), wikiToken));
      var reply := auth.net.Send(NodeRequest(Str(token), wikiToken));
      lookup := Some(reply);
      ghost var e2 := EnvOf(auth);
      assert (lookup, e2) == AuthorisedRun(e0, now);
      match InterpretNode(reply)
      case Some(v) =>
        objTokens := objTokens[wikiToken := v];
        r := v;
        assert ResolveRun(c0, e0, wikiToken, now) == (v, c0[wikiToken := v], e2);
      case None =>
        r := VNone;
        assert ResolveRun(c0, e0, wikiToken, now) == (VNone, c0, e2);
    }
  }

  /** Resolutions only accumulate: every cached wiki token keeps its object token. */
  lemma CacheOnlyGrows(old_: map<string, Value>, w: string, v: Value)
    requires w !in old_
    ensures forall k :: k in old_ ==> k in old_[w := v] && old_[w := v][k] == old_[k]
    ensures (old_[w := v]).Keys == old_.Keys + {w}
  {
  }

  // ---------------------------------------------------------------------
  // LarkRecordManager.batch_create_records
  // ---------------------------------------------------------------------

  /** `max_batch_size`: the most records one create request carries. */
  const MaxBatchSize: nat := 500

  /** `records_data[i:i + 500]` for `i` in `range(0, len(records_data), 500)`. */
  function Chunks<T>(xs: seq<T>): seq<seq<T>>
    decreases |xs|
  {
    if xs == [] then []
    else if |xs| <= MaxBatchSize then [xs]
    else [xs[..MaxBatchSize]] + Chunks(xs[MaxBatchSize..])
  }

  /** Python's `len(range(0, n, 500))`. */
  function NumChunks(n: nat): nat {
    (n + MaxBatchSize - 1) / MaxBatchSize
  }

  function Flatten<T>(xss: seq<seq<T>>): seq<T>
    decreases |xss|
  {
    if xss == [] then [] else xss[0] + Flatten(xss[1..])
  }

  /** There is a chunk for every multiple of 500 below the length: one request per 500 records or part of them. */
  lemma {:induction false} ChunksCount<T>(xs: seq<T>)
    ensures |Chunks(xs)| == NumChunks(|xs|)
    decreases |xs|
  {
    if |xs| > MaxBatchSize {
      ChunksCount(xs[MaxBatchSize..]);
    }
  }

  /** The loop runs while `500 * k` is below the length, once per chunk. */
  lemma {:induction false} ChunkBound<T>(xs: seq<T>, k: nat)
    ensures MaxBatchSize * k < |xs| <==> k < |Chunks(xs)|
    decreases |xs|
  {
    if |xs| > MaxBatchSize && k > 0 {
      ChunkBound(xs[MaxBatchSize..], k - 1);
    }
  }

  /** Chunk `k` is the slice the loop takes at `i == 500 * k`. */
  lemma {:induction false} ChunkAt<T>(xs: seq<T>, k: nat)
    requires k < |Chunks(xs)|
    ensures MaxBatchSize * k < |xs|
    ensures Chunks(xs)[k] == xs[MaxBatchSize * k..Min(MaxBatchSize * k + MaxBatchSize, |xs|)]
    decreases |xs|
  {
    if k > 0 {
      var rest := xs[MaxBatchSize..];
      ChunkAt(rest, k - 1);
      assert Chunks(xs)[k] == Chunks(rest)[k - 1];
      var a, b := MaxBatchSize * (k - 1), Min(MaxBatchSize * (k - 1) + MaxBatchSize, |rest|);
      assert b <= |rest| && forall j :: 0 <= j < b - a ==> rest[a..b][j] == xs[MaxBatchSize + a + j];
      assert rest[a..b] == xs[MaxBatchSize + a..MaxBatchSize + b];
    }
  }

  /** The chunks are consecutive, in order, and together hold every record once. */
  lemma {:induction false} ChunksFlatten<T>(xs: seq<T>)
    ensures Flatten(Chunks(xs)) == xs
    decreases |xs|
  {
    if |xs| > MaxBatchSize {
      ChunksFlatten(xs[MaxBatchSize..]);
      assert xs == xs[..MaxBatchSize] + xs[MaxBatchSize..];
    } else if xs != [] {
      assert Flatten(Chunks(xs)) == xs + Flatten([]);
    }
  }

  /** The loop's pass at `i == 500 * k < |xs|` takes chunk `k`. */
  lemma ChunkStep<T>(xs: seq<T>, k: nat)
    requires MaxBatchSize * k < |xs|
    ensures k < |Chunks(xs)|
    ensures Chunks(xs)[k] == xs[MaxBatchSize * k..Min(MaxBatchSize * k + MaxBatchSize, |xs|)]
    ensures Chunks(xs)[..k + 1] == Chunks(xs)[..k] + [Chunks(xs)[k]]
  {
    ChunkBound(xs, k);
    ChunkAt(xs, k);
  }

  /** Every chunk holds between 1 and 500 records. */
  lemma {:induction false} ChunkSizes<T>(xs: seq<T>, k: nat)
    requires k < |Chunks(xs)|
    ensures 0 < |Chunks(xs)[k]| <= MaxBatchSize
  {
    ChunkAt(xs, k);
  }

  /** 600 records are sent in two requests, of 500 and 100. */
  lemma SixHundredRecords<T>(xs: seq<T>)
    requires |xs| == 600
    ensures |Chunks(xs)| == 2 && |Chunks(xs)[0]| == 500 && |Chunks(xs)[1]| == 100
  {
    ChunksCount(xs);
    ChunkAt(xs, 0);
    ChunkAt(xs, 1);
  }

  /** How one chunk went: no token could be had, or the create request got this reply. */
  datatype ChunkOutcome = NoToken | Replied(reply: Reply)

  const NoAccessTokenMsg := "無法獲取 Access Token"
  const CreateFailedPrefix := "批次創建失敗"
  const CreateRaisedPrefix := "批次創建異常: "

  /** `[r.get('record_id') for r in records if r.get('record_id')]` over a list. */
  function IdsFromList(items: seq<Value>): (r: Result<seq<Value>, string>)
    ensures r.Ok? <==> forall k :: 0 <= k < |items| ==> items[k].VDict?
    ensures r.Ok? ==> |r.value| <= |items| && forall k :: 0 <= k < |r.value| ==> Truthy(r.value[k])
    decreases |items|
  {
    if items == [] then Ok([])
    else if !items[0].VDict? then Err(NoGetMsg(items[0]))
    else
      var id := Get(items[0].entries, "record_id", VNone);
      match IdsFromList(items[1..])
      case Err(e) => Err(e)
      case Ok(rest) => Ok(if Truthy(id) then [id] + rest else rest)
  }

  /**
   * The ids in `data_section.get('records', [])`. Iterating a non-empty
   * string or dict yields strings, which have no `get`.
   */
  function RecordIds(section: Value): (r: Result<seq<Value>, string>)
    ensures r.Ok? ==> forall k :: 0 <= k < |r.value| ==> Truthy(r.value[k])
  {
    if !section.VDict? then Err(NoGetMsg(section))
    else match Get(section.entries, "records", VList([]))
      case VList(items) => IdsFromList(items)
      case VStr(t) => if t == [] then Ok([]) else Err(NoGetMsg(VStr(t)))
      case VDict(m) => if m == map[] then Ok([]) else Err(NoGetMsg(VStr("")))
      case other => Err(NotIterableMsg(other))
  }

  /** The ids a chunk adds (`Ok`) or the one message it adds to `error_messages` (`Err`). */
  function ChunkResult(o: ChunkOutcome): (r: Result<seq<Value>, string>)
    ensures o.NoToken? ==> r == Err(NoAccessTokenMsg)
    ensures o.Replied? && o.reply.Raised? ==> r == Err(CreateRaisedPrefix + o.reply.error)
    ensures r.Ok? ==> Accepted(o.reply) && forall k :: 0 <= k < |r.value| ==> Truthy(r.value[k])
  {
    match o
    case NoToken => Err(NoAccessTokenMsg)
    case Replied(Raised(e)) => Err(CreateRaisedPrefix + e)
    case Replied(Answer(status, text, json)) =>
      if status != 200 then Err(CreateFailedPrefix + "，HTTP " + IntToString(status) + ": " + text)
      else match json
        case Err(e) => Err(CreateRaisedPrefix + e)
        case Ok(result) =>
          if !result.VDict? then Err(CreateRaisedPrefix + NoGetMsg(result))
          else
            var m := result.entries;
            if !IsZero(Get(m, "code", VNone)) then Err(CreateFailedPrefix + ": " + Str(Get(m, "msg", VNone)))
            else match RecordIds(Get(m, "data", VDict(map[])))
              case Ok(ids) => Ok(ids)
              case Err(e) => Err(CreateRaisedPrefix + e)
  }

  /** `success_ids`: the ids of the successful chunks, concatenated in order. */
  function IdsOf(os: seq<ChunkOutcome>): seq<Value>
    decreases |os|
  {
    if os == [] then []
    else
      var r := ChunkResult(os[|os| - 1]);
      IdsOf(os[..|os| - 1]) + (if r.Ok? then r.value else [])
  }

  /** `error_messages`: one message per failed chunk, in order. */
  function ErrorsOf(os: seq<ChunkOutcome>): seq<string>
    decreases |os|
  {
    if os == [] then []
    else
      var r := ChunkResult(os[|os| - 1]);
      ErrorsOf(os[..|os| - 1]) + (if r.Err? then [r.error] else [])
  }

  /** The chunks that were sent: those whose outcome is a reply. */
  function SentChunks<T>(cs: seq<T>, os: seq<ChunkOutcome>): seq<T>
    requires |cs| == |os|
    decreases |os|
  {
    if os == [] then []
    else
      SentChunks(cs[..|cs| - 1], os[..|os| - 1]) + (if os[|os| - 1].Replied? then [cs[|cs| - 1]] else [])
  }

  /** One more chunk extends the three accumulators at their ends. */
  lemma OutcomeSnoc<T>(cs: seq<T>, os: seq<ChunkOutcome>, c: T, o: ChunkOutcome)
    requires |cs| == |os|
    ensures IdsOf(os + [o]) == IdsOf(os) + (if ChunkResult(o).Ok? then ChunkResult(o).value else [])
    ensures ErrorsOf(os + [o]) == ErrorsOf(os) + (if ChunkResult(o).Err? then [ChunkResult(o).error] else [])
    ensures SentChunks(cs + [c], os + [o]) == SentChunks(cs, os) + (if o.Replied? then [c] else [])
  {
    assert (os + [o])[..|os|] == os;
    assert (cs + [c])[..|cs|] == cs;
  }

  /** No message is collected exactly when every chunk succeeded. */
  lemma {:induction false} ErrorsOfEmpty(os: seq<ChunkOutcome>)
    ensures ErrorsOf(os) == [] <==> forall k :: 0 <= k < |os| ==> ChunkResult(os[k]).Ok?
    ensures |ErrorsOf(os)| <= |os|
    decreases |os|
  {
    if os != [] {
      var init := os[..|os| - 1];
      ErrorsOfEmpty(init);
      var last := ChunkResult(os[|os| - 1]);
      assert ErrorsOf(os) == ErrorsOf(init) + (if last.Err? then [last.error] else []);
      assert forall k :: 0 <= k < |init| ==> init[k] == os[k];
    }
  }

  /** Every collected id is truthy. */
  lemma {:induction false} IdsOfTruthy(os: seq<ChunkOutcome>)
    ensures forall k :: 0 <= k < |IdsOf(os)| ==> Truthy(IdsOf(os)[k])
    decreases |os|
  {
    if os != [] {
      IdsOfTruthy(os[..|os| - 1]);
    }
  }

  /** When every chunk got a reply, every chunk was sent, in order. */
  lemma {:induction false} AllSent<T>(cs: seq<T>, os: seq<ChunkOutcome>)
    requires |cs| == |os| && forall k :: 0 <= k < |os| ==> os[k].Replied?
    ensures SentChunks(cs, os) == cs
    decreases |os|
  {
    if os != [] {
      var init := os[..|os| - 1];
      assert forall k :: 0 <= k < |init| ==> init[k] == os[k];
      AllSent(cs[..|cs| - 1], init);
      assert cs == cs[..|cs| - 1] + [cs[|cs| - 1]];
    }
  }

  /** One pass of the loop on a state: the create request needs a token, and its reply is the outcome. */
  function ChunkRun(e: Env, now: int): (ChunkOutcome, Env) {
    var (reply, e1) := AuthorisedRun(e, now);
    (if reply.Some? then Replied(reply.value) else NoToken, e1)
  }

  /** `n` passes of the loop from the state `e`: the outcomes in order and the state afterwards. */
  function RunChunks(e: Env, n: nat, now: int): (r: (seq<ChunkOutcome>, Env))
    ensures |r.0| == n
    decreases n
  {
    if n == 0 then ([], e)
    else
      var (os, e1) := RunChunks(e, n - 1, now);
      var (o, e2) := ChunkRun(e1, now);
      (os + [o], e2)
  }

  lemma RunChunksStep(e: Env, k: nat, now: int)
    ensures RunChunks(e, k + 1, now).0 == RunChunks(e, k, now).0 + [ChunkRun(RunChunks(e, k, now).1, now).0]
    ensures RunChunks(e, k + 1, now).1 == ChunkRun(RunChunks(e, k, now).1, now).1
  {
  }

  /**
   * With a token that may be served throughout, every chunk is sent and
   * gets the next scripted reply: one request per chunk, and no token request.
   */
  lemma {:induction false} RunChunksCachedToken(e: Env, n: nat, now: int)
    requires ServedFromCache(e.cache, false, now) && n <= |e.pending|
    ensures RunChunks(e, n, now).1 == Env(e.cache, e.pending[n..])
    ensures forall k :: 0 <= k < n ==> RunChunks(e, n, now).0[k] == Replied(e.pending[k])
    decreases n
  {
    if n > 0 {
      RunChunksCachedToken(e, n - 1, now);
      var (os, e1) := RunChunks(e, n - 1, now);
      AuthorisedWithCachedToken(e1, now);
      assert e1.pending[1..] == e.pending[n..];
    }
  }

  /**
   * 600 records and a token that may be served: two create requests, of 500
   * and 100 records, answered by the first two scripted replies.
   */
  lemma SixHundredUploads<T>(xs: seq<T>, e: Env, now: int)
    requires |xs| == 600 && ServedFromCache(e.cache, false, now) && |e.pending| >= 2
    ensures var os := RunChunks(e, |Chunks(xs)|, now).0;
            os == [Replied(e.pending[0]), Replied(e.pending[1])]
            && SentChunks(Chunks(xs), os) == Chunks(xs)
            && |SentChunks(Chunks(xs), os)[0]| == 500 && |SentChunks(Chunks(xs), os)[1]| == 100
  {
    SixHundredRecords(xs);
    RunChunksCachedToken(e, 2, now);
    var os := RunChunks(e, 2, now).0;
    AllSent(Chunks(xs), os);
  }

  class RecordManager {
    const auth: AuthManager

    constructor(auth: AuthManager)
      ensures this.auth == auth
    {
      this.auth := auth;
    }

    /** One pass of the loop up to the reply: a token, then the create request for `batch`. */
    method UploadChunk(objToken: string, tableId: string, batch: seq<map<string, Value>>, now: int)
      returns (o: ChunkOutcome)
      modifies auth, auth.net
      ensures Uploads(auth.net.sent) == Uploads(old(auth.net.sent)) + (if o.Replied? then [Upload(objToken, tableId, batch)] else [])
      ensures o.Replied? ==> |auth.net.sent| > 0 && LastSent(auth.net.sent).CreateRequest?
                             && LastSent(auth.net.sent).objToken == objToken
                             && LastSent(auth.net.sent).tableId == tableId
      ensures (o, EnvOf(auth)) == ChunkRun(old(EnvOf(auth)), now)
    {
      ghost var e0 := EnvOf(auth);
      var token := auth.GetTenantAccessToken(false, now);
      assert (token, EnvOf(auth)) == TokenRun(e0, false, now);
      if !Truthy(token) {
        return NoToken;
      }
      var req := CreateRequest(Str(token), objToken, tableId, batch);
      UploadsSnoc(auth.net.sent, req);
      var reply := auth.net.Send(req);
      assert (Some(reply), EnvOf(auth)) == AuthorisedRun(e0, now);
      return Replied(reply);
    }

    /**
     * One pass of the loop at `i == 500 * k`, where `k` chunks are done:
     * chunk `k` is sent if a token can be had, and its ids or its message are
     * collected.
     */
    method CreateChunk(objToken: string, tableId: string, recordsData: seq<map<string, Value>>, i: nat, now: int,
                       successIds: seq<Value>, errorMessages: seq<string>, ghost outcomes: seq<ChunkOutcome>,
                       ghost e0: Env, ghost before: seq<Upload>)
      returns (successIds': seq<Value>, errorMessages': seq<string>, ghost outcomes': seq<ChunkOutcome>)
      requires i < |recordsData| && i == MaxBatchSize * |outcomes|
      requires successIds == IdsOf(outcomes) && errorMessages == ErrorsOf(outcomes)
      requires outcomes == RunChunks(e0, |outcomes|, now).0 && EnvOf(auth) == RunChunks(e0, |outcomes|, now).1
      requires |outcomes| <= |Chunks(recordsData)|
      requires Uploads(auth.net.sent) == before + ToTable(objToken, tableId, SentChunks(Chunks(recordsData)[..|outcomes|], outcomes))
      modifies auth, auth.net
      ensures |outcomes| < |Chunks(recordsData)| && |outcomes'| == |outcomes| + 1
      ensures successIds' == IdsOf(outcomes') && errorMessages' == ErrorsOf(outcomes')
      ensures outcomes' == RunChunks(e0, |outcomes'|, now).0 && EnvOf(auth) == RunChunks(e0, |outcomes'|, now).1
      ensures Uploads(auth.net.sent) == before + ToTable(objToken, tableId, SentChunks(Chunks(recordsData)[..|outcomes'|], outcomes'))
    {
      ghost var k, chunks := |outcomes|, Chunks(recordsData);
      ChunkStep(recordsData, k);
      RunChunksStep(e0, k, now);
      var batchData := recordsData[i..Min(i + MaxBatchSize, |recordsData|)];
      assert batchData == chunks[k];
      ghost var sent := SentChunks(chunks[..k], outcomes);
      ghost var e1 := EnvOf(auth);
      var o := UploadChunk(objToken, tableId, batchData, now);
      assert (o, EnvOf(auth)) == ChunkRun(e1, now);
      OutcomeSnoc(chunks[..k], outcomes, chunks[k], o);
      outcomes' := outcomes + [o];
      assert SentChunks(chunks[..k + 1], outcomes') == sent + (if o.Replied? then [chunks[k]] else []);
      ToTableStep(objToken, tableId, before, sent, chunks[k], o.Replied?);
      var result := ChunkResult(o);
      if result.Ok? {
        successIds', errorMessages' := successIds + result.value, errorMessages;
      } else {
        successIds', errorMessages' := successIds, errorMessages + [result.error];
      }
    }

    /**
     * `batch_create_records`: one pass per chunk of 500; a failed chunk adds
     * one message and the loop goes on; the run succeeds when no message was
     * collected. `outcomes` records how each chunk went.
     */
    method BatchCreateRecords(objToken: string, tableId: string, recordsData: seq<map<string, Value>>, now: int)
      returns (success: bool, successIds: seq<Value>, errorMessages: seq<string>, ghost outcomes: seq<ChunkOutcome>)
      modifies auth, auth.net
      ensures recordsData == [] ==> success && successIds == [] && errorMessages == []
                                    && unchanged(auth) && unchanged(auth.net)
      ensures |outcomes| == |Chunks(recordsData)|
      ensures successIds == IdsOf(outcomes) && errorMessages == ErrorsOf(outcomes)
      ensures success <==> errorMessages == []
      ensures Uploads(auth.net.sent) == Uploads(old(auth.net.sent)) + ToTable(objToken, tableId, SentChunks(Chunks(recordsData), outcomes))
      ensures (outcomes, EnvOf(auth)) == RunChunks(old(EnvOf(auth)), |Chunks(recordsData)|, now)
    {
      outcomes := [];
      if recordsData == [] {
        return true, [], [], [];
      }
      successIds := [];
      errorMessages := [];
      ghost var chunks := Chunks(recordsData);
      ghost var before := Uploads(auth.net.sent);
      ghost var e0 := EnvOf(auth);
      ghost var k := 0;
      var i := 0;
      while i < |recordsData|
        invariant 0 <= k <= |chunks| && i == MaxBatchSize * k
        invariant |outcomes| == k
        invariant outcomes == RunChunks(e0, k, now).0 && EnvOf(auth) == RunChunks(e0, k, now).1
        invariant successIds == IdsOf(outcomes) && errorMessages == ErrorsOf(outcomes)
        invariant Uploads(auth.net.sent) == before + ToTable(objToken, tableId, SentChunks(chunks[..k], outcomes))
        decreases |chunks| - k
      {
        successIds, errorMessages, outcomes := CreateChunk(objToken, tableId, recordsData, i, now,
                                                           successIds, errorMessages, outcomes, e0, before);
        i := i + MaxBatchSize;
        k := k + 1;
      }
      ChunkBound(recordsData, k);
      assert chunks[..k] == chunks;
      success := |errorMessages| == 0;
    }
  }
}
