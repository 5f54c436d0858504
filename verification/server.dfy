/**
 * The response side of request handling (`utils_server.go`): deciding what
 * to log and what to send for an error, serving a handler's response, and
 * running a handler inside a DB transaction whose commit has the last word.
 *
 * Writing to the client is represented by the response that would be
 * written; logging by whether a log attempt is made and whether it gets
 * past `shouldLogError`.
 */
module Server {
  import opened Wrappers
  import opened ErrorModel
  import opened ErrorUtils
  import opened Contexts
  import opened Transactions

  /** A plain-text response: status and body. */
  datatype Response = Response(status: int, body: string)

  /** The body sent for every error that is not public. */
  const UnexpectedError := "Unexpected Error"

  /** What handling an outcome did: a log attempt, whether it was actually logged, and the response written. */
  datatype Reply = Reply(logAttempt: bool, logged: bool, written: Option<Response>)

  /** `writeRes`: serves the response when there is one. */
  function WriteRes(res: Option<Response>): (r: Reply)
    ensures !r.logAttempt && !r.logged
    ensures r.written == res
  {
    Reply(false, false, res)
  }

  /** The response for an error the client may see: its resolved status and its `Error()` text. */
  function PublicResponse(e: Error): Response {
    Response(HttpStatusCode(e.meta), ErrorText(e))
  }

  /**
   * `writeErr(rew, req, wrote, err)`. Nil does nothing. An error that is not
   * itself a public `Error` gets a log attempt. Unless something was written
   * already, the first `Error` in the chain is sent with its status and text
   * when it is public; anything else is a 500 with a fixed body.
   */
  function WriteErr(ctx: Ctx, wrote: bool, err: Chain): (r: Reply)
    ensures err == [] ==> r == Reply(false, false, None)
    ensures r.logAttempt <==> err != [] && !(err[0].App? && err[0].meta.isPublic)
    ensures r.logged <==> r.logAttempt && ShouldLogError(ctx, err)
    ensures r.written.Some? <==> err != [] && !wrote
    ensures r.written.Some? ==> forall i :: FirstAt(err, AppKind, i) && err[i].meta.isPublic ==>
              r.written.value == PublicResponse(Error(err[i].meta, err[i + 1..]))
    ensures r.written.Some? && PublicPart(err) == [] ==> r.written.value == Response(500, UnexpectedError)
  {
    if err == [] then Reply(false, false, None)
    else
      PublicPartIsSelf(err);
      var attempt := PublicPart(err) != err;
      var logged := attempt && ShouldLogError(ctx, err);
      if wrote then Reply(attempt, logged, None)
      else if PublicPart(err) != [] then
        Reply(attempt, logged, Some(PublicResponse(AsError(err).value)))
      else Reply(attempt, logged, Some(Response(500, UnexpectedError)))
  }

  /**
   * Two errors the client may not see produce the same response: nothing of
   * a private error reaches the client.
   */
  lemma PrivateErrorsIndistinguishable(ctx1: Ctx, ctx2: Ctx, wrote: bool, e1: Failure, e2: Failure)
    requires PublicPart(e1) == [] && PublicPart(e2) == []
    ensures WriteErr(ctx1, wrote, e1).written == WriteErr(ctx2, wrote, e2).written
  {
  }

  /**
   * A public `Error` beneath a wrapper is still sent to the client, but since
   * the error is not that `Error` itself, a log attempt is made too.
   */
  lemma WrappedPublicLoggedAndSent(ctx: Ctx, e: Error)
    requires e.meta.isPublic
    ensures WriteErr(ctx, false, WithStack(ToChain(e))).logAttempt
    ensures WriteErr(ctx, false, WithStack(ToChain(e))).written == Some(PublicResponse(e))
    ensures !WriteErr(ctx, false, ToChain(e)).logAttempt
    ensures WriteErr(ctx, false, ToChain(e)).written == Some(PublicResponse(e))
  {
    var c := WithStack(ToChain(e));
    assert FirstAt(c, AppKind, 1);
    assert c[2..] == e.cause;
    assert FirstAt(ToChain(e), AppKind, 0);
    assert ToChain(e)[1..] == e.cause;
  }

  /** `writeResOrErr`: an error wins over the response; without one the response, if any, is served. */
  function WriteResOrErr(ctx: Ctx, res: Option<Response>, err: Chain): (r: Reply)
    ensures err != [] ==> r == WriteErr(ctx, false, err) && r.written.Some?
    ensures err == [] ==> r == WriteRes(res) && r.written == res && !r.logAttempt
  {
    if err != [] then WriteErr(ctx, false, err) else WriteRes(res)
  }

  /** How a handler ended: it returned a response and an error, or it panicked. */
  datatype HandlerResult = Returned(res: Option<Response>, err: Chain) | PanickedWith(value: Failure)

  /** `unpanicResWith`: a panic becomes an error, with no response. */
  function UnpanicResWith(h: HandlerResult): (r: (Option<Response>, Chain))
    ensures h.Returned? ==> r == (h.res, h.err)
    ensures h.PanickedWith? ==> r.0 == None && r.1 == h.value && r.1 != []
  {
    match h
    case Returned(res, err) => (res, err)
    case PanickedWith(v) => (None, v)
  }

  /** `resWith`: run the handler without letting a panic escape, then answer with its response or error. */
  function ResWith(ctx: Ctx, h: HandlerResult): (r: Reply)
    ensures h.PanickedWith? ==> r == WriteErr(ctx, false, h.value) && r.written.Some?
    ensures h.Returned? && h.err == [] ==> r.written == h.res
    ensures h.Returned? && h.err != [] ==> r == WriteErr(ctx, false, h.err)
  {
    var (res, err) := UnpanicResWith(h);
    WriteResOrErr(ctx, res, err)
  }

  /** A handler run inside a transaction: what it does there, and the response it returns if it returns. */
  datatype TxHandler = TxHandler(body: Body, res: Option<Response>)

  /** Whether the handler was called and returned, so that its response was kept. */
  predicate HandlerReturned(ctx: Ctx, b: Body, db: Db) {
    match CtxDbTx(ctx)
    case Some(_) => !Panicked(ctx, b, db)
    case None => BeginTx(db) == [] && !Panicked(CtxWithDbTx(ctx, db.next), b, db)
  }

  /**
   * `resWithDbTx`: run the handler in `withDbTx`, then answer with the error
   * `withDbTx` returned (which may be a commit failure) or, if none, the
   * handler's response.
   */
  function ResWithDbTx(ctx: Ctx, h: TxHandler, db: Db): (r: Reply)
    ensures WithDbTx(ctx, Some(h.body), db).err != [] ==> r == WriteErr(ctx, false, WithDbTx(ctx, Some(h.body), db).err)
    ensures WithDbTx(ctx, Some(h.body), db).err == [] ==> r.written == h.res
  {
    var run := WithDbTx(ctx, Some(h.body), db);
    var res := if HandlerReturned(ctx, h.body, db) then h.res else None;
    WriteResOrErr(ctx, res, run.err)
  }

  /**
   * When the handler succeeds but the commit fails, the handler's response is
   * dropped: the client gets the commit error, a 500 when the driver's error
   * carries no `Error` of the application.
   */
  lemma CommitFailureOverridesResponse(ctx: Ctx, h: TxHandler, db: Db)
    requires CtxDbTx(ctx) == None && db.beginErr == [] && db.commitErr != []
    requires Exec(CtxWithDbTx(ctx, db.next), h.body, db).err == []
    requires forall i :: 0 <= i < |db.commitErr| ==> !db.commitErr[i].App?
    ensures ResWithDbTx(ctx, h, db).written == Some(Response(500, UnexpectedError))
  {
    var err := WithDbTx(ctx, Some(h.body), db).err;
    assert forall i :: 0 <= i < |err| ==> !err[i].App? by {
      forall i | 0 <= i < |err| ensures !err[i].App? {
        if i >= 2 { assert err[i] == db.commitErr[i - 2]; }
      }
    }
  }

  /** When the handler succeeds and the commit succeeds, the handler's response is served. */
  lemma CommitSuccessServesResponse(ctx: Ctx, h: TxHandler, db: Db)
    requires CtxDbTx(ctx) == None && db.beginErr == [] && db.commitErr == []
    requires Exec(CtxWithDbTx(ctx, db.next), h.body, db).err == []
    ensures ResWithDbTx(ctx, h, db).written == h.res
    ensures !ResWithDbTx(ctx, h, db).logAttempt
  {
  }

  /** A failing handler's error is answered, never its response, and nothing is committed. */
  lemma HandlerErrorAnswered(ctx: Ctx, h: TxHandler, db: Db)
    requires CtxDbTx(ctx) == None && db.beginErr == []
    requires Exec(CtxWithDbTx(ctx, db.next), h.body, db).err != []
    ensures ResWithDbTx(ctx, h, db) == WriteErr(ctx, false, Exec(CtxWithDbTx(ctx, db.next), h.body, db).err)
    ensures Commits(WithDbTx(ctx, Some(h.body), db).trace) == 0
  {
    FreshScope(ctx, h.body, db);
  }
}
