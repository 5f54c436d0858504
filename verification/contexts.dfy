/**
 * What the core reads from a request's `context.Context`: the ambient
 * transaction slot (`ctxDbTx`/`ctxWithDbTx` in `utils_db.go`), whether the
 * HTTP request is stored in it (`isCtxHttp` in `utils_server.go`), and whether
 * it has been canceled (`isCtxCanceled` in `utils_misc.go`).
 *
 * A context is the chain of layers it was derived through, newest first, as
 * `ctx.Value` walks it: a lookup answers from the newest layer that holds
 * the key, and a canceled ancestor cancels every context derived from it.
 */
module Contexts {
  import opened Wrappers

  /** A database transaction handle, identified abstractly. */
  type TxId = nat

  /**
   * One derivation step: `context.WithValue` under the transaction key or
   * the request key, or a cancelable context, with whether it has fired
   * by the moment of asking.
   */
  datatype CtxLayer =
    | TxValue(tx: TxId)
    | ReqValue
    | Cancelable(fired: bool)

  /** A context: its layers, newest first; `[]` is the background context. */
  datatype Ctx = Ctx(layers: seq<CtxLayer>)

  /** `ctxDbTx`: the transaction stored by the newest layer that holds one, if any. */
  function CtxDbTx(ctx: Ctx): (r: Option<TxId>)
    ensures r.None? <==> forall i :: 0 <= i < |ctx.layers| ==> !ctx.layers[i].TxValue?
    ensures r.Some? ==> exists i :: (0 <= i < |ctx.layers| && ctx.layers[i] == TxValue(r.value) &&
                                     forall j :: 0 <= j < i ==> !ctx.layers[j].TxValue?)
    decreases |ctx.layers|
  {
    if ctx.layers == [] then None
    else if ctx.layers[0].TxValue? then Some(ctx.layers[0].tx)
    else
      var r := CtxDbTx(Ctx(ctx.layers[1..]));
      assert r.Some? ==> exists i :: (1 <= i < |ctx.layers| && ctx.layers[i] == TxValue(r.value) &&
                                      forall j :: 0 <= j < i ==> !ctx.layers[j].TxValue?) by {
        if r.Some? {
          var k :| 0 <= k < |ctx.layers[1..]| && ctx.layers[1..][k] == TxValue(r.value) &&
            forall j :: 0 <= j < k ==> !ctx.layers[1..][j].TxValue?;
          assert ctx.layers[k + 1] == ctx.layers[1..][k];
          forall j | 0 <= j < k + 1 ensures !ctx.layers[j].TxValue? {
            if j > 0 { assert ctx.layers[j] == ctx.layers[1..][j - 1]; }
          }
        }
      }
      assert r.None? ==> forall i :: 0 <= i < |ctx.layers| ==> !ctx.layers[i].TxValue? by {
        if r.None? {
          forall i | 0 <= i < |ctx.layers| ensures !ctx.layers[i].TxValue? {
            if i > 0 { assert ctx.layers[i] == ctx.layers[1..][i - 1]; }
          }
        }
      }
      r
  }

  /** `isCtxHttp`: some layer stores the HTTP request. */
  predicate IsCtxHttp(ctx: Ctx)
    ensures IsCtxHttp(ctx) <==> exists i :: 0 <= i < |ctx.layers| && ctx.layers[i].ReqValue?
    decreases |ctx.layers|
  {
    if ctx.layers == [] then false
    else
      var rest := Ctx(ctx.layers[1..]);
      assert forall i :: 0 < i < |ctx.layers| ==> ctx.layers[i] == rest.layers[i - 1];
      ctx.layers[0].ReqValue? || IsCtxHttp(rest)
  }

  /** `isCtxCanceled`: the context or one of its ancestors has been canceled by the moment of asking. */
  predicate IsCtxCanceled(ctx: Ctx)
    ensures IsCtxCanceled(ctx) <==> exists i :: 0 <= i < |ctx.layers| && ctx.layers[i] == Cancelable(true)
    decreases |ctx.layers|
  {
    if ctx.layers == [] then false
    else
      var rest := Ctx(ctx.layers[1..]);
      assert forall i :: 0 < i < |ctx.layers| ==> ctx.layers[i] == rest.layers[i - 1];
      ctx.layers[0] == Cancelable(true) || IsCtxCanceled(rest)
  }

  /** `ctxWithDbTx`: a child context whose transaction slot holds `tx`; the request and cancellation are inherited. */
  function CtxWithDbTx(ctx: Ctx, tx: TxId): (r: Ctx)
    ensures CtxDbTx(r) == Some(tx)
    ensures IsCtxHttp(r) == IsCtxHttp(ctx) && IsCtxCanceled(r) == IsCtxCanceled(ctx)
  {
    var r := Ctx([TxValue(tx)] + ctx.layers);
    assert r.layers[1..] == ctx.layers;
    r
  }

  /** `reqWithReqCtx`: stores the request in its own context; the transaction and cancellation are inherited. */
  function ReqWithReqCtx(ctx: Ctx): (r: Ctx)
    ensures IsCtxHttp(r)
    ensures CtxDbTx(r) == CtxDbTx(ctx) && IsCtxCanceled(r) == IsCtxCanceled(ctx)
  {
    var r := Ctx([ReqValue] + ctx.layers);
    assert r.layers[1..] == ctx.layers;
    r
  }
}
