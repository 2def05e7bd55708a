/** `RequestExecutionHandler`: the per-connection state machine. The Ruby
    context is an attribute bag; here it is a record whose host and path are
    absent until `initalize_context` stores them and whose two flags are the
    `REQUEST_SENT` and `RESPONSE_RECEIVED` attributes (only ever set to true,
    so a flag is either unset or true). Each callback is a pure function of the
    context returning its `Effect`: the context afterwards, the request it
    returns to the reactor, and whether it called `count_down()` on the
    shared latch. */
module RequestExecution {
  import opened Wrappers

  /** `HttpHost.new(uri.host)`. */
  datatype Host = Host(name: string)

  /** The connect attachment `{:host => ..., :path => ...}`. */
  datatype Attachment = Attachment(host: Host, path: string)

  datatype Context = Context(
    targetHost: Option<Host>,
    targetPath: Option<string>,
    requestSent: bool,
    responseReceived: bool)

  /** The context of a session before any callback has touched it. */
  const Fresh := Context(None, None, false, false)

  /** `BasicHttpRequest.new("GET", target_path)`: only the method and the
      request path are modelled. */
  datatype Request = Get(path: Option<string>)

  datatype Effect = Effect(ctx: Context, request: Option<Request>, countsDown: bool)

  /** `initalize_context`: stores the attachment's host and path. */
  function InitializeContext(ctx: Context, a: Attachment): (r: Context)
    ensures r.targetHost == Some(a.host) && r.targetPath == Some(a.path)
    ensures r.requestSent == ctx.requestSent
    ensures r.responseReceived == ctx.responseReceived
  {
    ctx.(targetHost := Some(a.host), targetPath := Some(a.path))
  }

  /** `submit_request`: emits a GET for the stored path the first time only. */
  function SubmitRequest(ctx: Context): (r: Effect)
    ensures !r.countsDown
    ensures r.ctx.requestSent
    ensures r.ctx.targetHost == ctx.targetHost && r.ctx.targetPath == ctx.targetPath
    ensures r.ctx.responseReceived == ctx.responseReceived
    ensures r.request.Some? <==> !ctx.requestSent
    ensures r.request.Some? ==> r.request.value == Get(ctx.targetPath)
    ensures ctx.requestSent ==> r.ctx == ctx
  {
    if !ctx.requestSent then
      Effect(ctx.(requestSent := true), Some(Get(ctx.targetPath)), false)
    else
      Effect(ctx, None, false)
  }

  /** `handle_response`: the user handler is opaque and leaves the context
      alone; the response is recorded and the latch counted down. */
  function HandleResponse(ctx: Context): (r: Effect)
    ensures r.countsDown && r.request.None?
    ensures r.ctx.responseReceived
    ensures r.ctx == ctx.(responseReceived := true)
  {
    Effect(ctx.(responseReceived := true), None, true)
  }

  /** `finalize_context`: counts down only for a connection that never
      recorded a response. */
  function FinalizeContext(ctx: Context): (r: Effect)
    ensures r.countsDown <==> !ctx.responseReceived
    ensures r.ctx == ctx && r.request.None?
  {
    Effect(ctx, None, !ctx.responseReceived)
  }

  /** Number of `count_down()` calls in a run of effects. */
  function CountDowns(effects: seq<Effect>): nat
  {
    if effects == [] then 0
    else CountDowns(effects[..|effects| - 1]) + (if effects[|effects| - 1].countsDown then 1 else 0)
  }

  /** Once `REQUEST_SENT` is set a second submission emits nothing and
      changes nothing. */
  lemma SubmitIdempotent(ctx: Context)
    ensures SubmitRequest(SubmitRequest(ctx).ctx).request.None?
    ensures SubmitRequest(SubmitRequest(ctx).ctx).ctx == SubmitRequest(ctx).ctx
  {
  }

  /** The result of the reactor calling `submit_request` `n` times in a row. */
  datatype Submissions = Submissions(ctx: Context, requests: seq<Request>)

  function SubmitTimes(ctx: Context, n: nat): Submissions
    decreases n
  {
    if n == 0 then Submissions(ctx, [])
    else
      var e := SubmitRequest(ctx);
      var rest := SubmitTimes(e.ctx, n - 1);
      Submissions(rest.ctx, (if e.request.Some? then [e.request.value] else []) + rest.requests)
  }

  /** However often write readiness fires, a context emits at most one
      request, for its stored path, and only if none was sent before. */
  lemma {:induction false} SubmitAtMostOnce(ctx: Context, n: nat)
    ensures |SubmitTimes(ctx, n).requests| == (if n > 0 && !ctx.requestSent then 1 else 0)
    ensures forall q :: q in SubmitTimes(ctx, n).requests ==> q == Get(ctx.targetPath)
    ensures SubmitTimes(ctx, n).ctx == (if n > 0 then ctx.(requestSent := true) else ctx)
    decreases n
  {
    if n > 0 {
      var e := SubmitRequest(ctx);
      SubmitAtMostOnce(e.ctx, n - 1);
      assert e.ctx.requestSent && e.ctx.targetPath == ctx.targetPath;
    }
  }

  /** A connection that gets a response and is then torn down counts down
      exactly once, through `handle_response`; one torn down without a
      response counts down exactly once, through `finalize_context`. */
  lemma {:induction false} ResponseThenFinalizeOnce(ctx: Context)
    requires !ctx.responseReceived
    ensures var h := HandleResponse(ctx);
      CountDowns([h, FinalizeContext(h.ctx)]) == 1
    ensures CountDowns([FinalizeContext(ctx)]) == 1
  {
    var h := HandleResponse(ctx);
    assert [h, FinalizeContext(h.ctx)][..1] == [h];
    assert [h][..0] == [] && [FinalizeContext(ctx)][..0] == [];
    assert CountDowns([h]) == 1;
  }

  /** The two flags are sticky: no callback clears one that is set. */
  lemma FlagsMonotone(ctx: Context, a: Attachment)
    ensures ctx.requestSent ==>
              && InitializeContext(ctx, a).requestSent
              && HandleResponse(ctx).ctx.requestSent
              && FinalizeContext(ctx).ctx.requestSent
    ensures ctx.responseReceived ==>
              && InitializeContext(ctx, a).responseReceived
              && SubmitRequest(ctx).ctx.responseReceived
              && FinalizeContext(ctx).ctx.responseReceived
  {
  }
}
