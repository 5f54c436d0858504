/**
 * Constructors, mutators and predicates over error chains (`utils_err.go`).
 */
module ErrorUtils {
  import opened Wrappers
  import opened Text
  import opened ErrorModel
  import opened Contexts

  /** Postgres error codes the core recognises. */
  const QueryCanceled := "57014"
  const SyntaxError := "42601"
  const CheckViolation := "23514"

  /**
   * Errno values for a reset connection and a broken pipe, as on Linux (the
   * numbers are platform-specific: on macOS `ECONNRESET` is 54).
   */
  const ECONNRESET := 104
  const EPIPE := 32

  /** The prefix of DB codes raised by procedural code (`DbCodeErrorPrefix`). */
  const DbCodeErrorPrefix := "db.error."

  /** `errors.WithStack`: nil stays nil, anything else gains a stack layer and keeps its text. */
  function WithStack(c: Chain): (r: Chain)
    ensures c == [] ==> r == []
    ensures c != [] ==> |r| == |c| + 1 && r[0] == Stack && r[1..] == c
    ensures ChainText(r) == ChainText(c)
  {
    if c == [] then [] else [Stack] + c
  }

  /** `errors.Wrap`: nil stays nil; otherwise the text becomes `msg: <cause text>`. */
  function Wrap(c: Chain, msg: string): (r: Chain)
    ensures r == [] <==> c == []
    ensures c != [] ==> |r| == |c| + 2 && r[2..] == c && ChainText(r) == msg + ": " + ChainText(c)
  {
    if c == [] then []
    else
      var r := [Stack, Msg(msg)] + c;
      assert r[1..][1..] == c;
      r
  }

  /** `Err`: an `Error` on top stays as it is; anything else becomes the cause of a zero `Error`. Nil panics. */
  function Err(c: Chain): (e: Error)
    requires c != []
    ensures c[0].App? ==> ToChain(e) == c
    ensures !c[0].App? ==> e.meta == NoMeta && e.cause == c
  {
    match c[0]
    case App(m) => Error(m, c[1..])
    case _ => Error(NoMeta, c)
  }

  /** `Err` gives back an `Error` unchanged. */
  lemma ErrOfError(e: Error)
    ensures Err(ToChain(e)) == e
  {
    assert ToChain(e)[1..] == e.cause;
  }

  /** `Err` adds at most one layer: wrapping twice is wrapping once. */
  lemma ErrIdempotent(c: Chain)
    requires c != []
    ensures Err(ToChain(Err(c))) == Err(c)
  {
    ErrOfError(Err(c));
  }

  /**
   * `ErrWith`: nil stays nil; otherwise the input is wrapped with `Err` and,
   * when there is a mutator, the mutator is applied to that copy.
   */
  function ErrWith(c: Chain, f: Option<Error -> Error>): (r: Chain)
    ensures r == [] <==> c == []
    ensures c != [] && f.None? ==> r == ToChain(Err(c))
    ensures c != [] && f.Some? ==> r == ToChain(f.value(Err(c)))
  {
    if c == [] then []
    else match f
      case None => ToChain(Err(c))
      case Some(fun) => ToChain(fun(Err(c)))
  }

  function SetPublic(e: Error): Error {
    e.(meta := e.meta.(isPublic := true))
  }

  function SetStatus(e: Error, status: int): Error {
    e.(meta := e.meta.(httpStatus := status))
  }

  /** `ErrPub`: marks the (wrapped) error public and changes nothing else. */
  function ErrPub(c: Chain): (r: Chain)
    ensures c == [] ==> r == []
    ensures c != [] ==> r == ToChain(Error(Err(c).meta.(isPublic := true), Err(c).cause))
  {
    ErrWith(c, Some(SetPublic))
  }

  /** `ErrHttp`: sets the HTTP status of the (wrapped) error and changes nothing else. */
  function ErrHttp(c: Chain, status: int): (r: Chain)
    ensures c == [] ==> r == []
    ensures c != [] ==> r == ToChain(Error(Err(c).meta.(httpStatus := status), Err(c).cause))
  {
    ErrWith(c, Some((e: Error) => SetStatus(e, status)))
  }

  /** Marking public twice is marking public once. */
  lemma ErrPubIdempotent(c: Chain)
    ensures ErrPub(ErrPub(c)) == ErrPub(c)
  {
    if c != [] {
      ErrOfError(Error(Err(c).meta.(isPublic := true), Err(c).cause));
    }
  }

  /** The last HTTP status written wins. */
  lemma ErrHttpLastWins(c: Chain, first: int, second: int)
    ensures ErrHttp(ErrHttp(c, first), second) == ErrHttp(c, second)
  {
    if c != [] {
      ErrOfError(Error(Err(c).meta.(httpStatus := first), Err(c).cause));
    }
  }

  /** Setting the status and marking public touch different fields, so their order does not matter. */
  lemma ErrPubHttpCommute(c: Chain, status: int)
    ensures ErrPub(ErrHttp(c, status)) == ErrHttp(ErrPub(c), status)
  {
    if c != [] {
      ErrOfError(Error(Err(c).meta.(httpStatus := status), Err(c).cause));
      ErrOfError(Error(Err(c).meta.(isPublic := true), Err(c).cause));
    }
  }

  /** The outermost layer of `r` is a public `Error` whose status resolves to `status`. */
  predicate PublicWithStatus(r: Chain, status: int) {
    r != [] && r[0].App? && r[0].meta.isPublic && HttpStatusCode(r[0].meta) == status
  }

  /** `ErrPubHttp`: public, with the given status; the DB fields and the cause are those of `Err(c)`. */
  function ErrPubHttp(c: Chain, status: int): (r: Chain)
    ensures c == [] ==> r == []
    ensures c != [] ==> |r| > 0 && r[0] == App(Err(c).meta.(isPublic := true, httpStatus := status)) && r[1..] == Err(c).cause
  {
    var r := ErrPub(ErrHttp(c, status));
    assert c != [] ==> r[0] == App(Err(c).meta.(isPublic := true, httpStatus := status)) by {
      if c != [] {
        ErrOfError(Error(Err(c).meta.(httpStatus := status), Err(c).cause));
      }
    }
    r
  }

  function ErrPubNotFound(c: Chain): (r: Chain)
    ensures c == [] <==> r == []
    ensures c != [] ==> PublicWithStatus(r, 404) && r[1..] == Err(c).cause
  {
    ErrPubHttp(c, 404)
  }

  function ErrPubBadRequest(c: Chain): (r: Chain)
    ensures c == [] <==> r == []
    ensures c != [] ==> PublicWithStatus(r, 400) && r[1..] == Err(c).cause
  {
    ErrPubHttp(c, 400)
  }

  function ErrPubUnauthenticated(c: Chain): (r: Chain)
    ensures c == [] <==> r == []
    ensures c != [] ==> PublicWithStatus(r, 401) && r[1..] == Err(c).cause
  {
    ErrPubHttp(c, 401)
  }

  function ErrPubForbidden(c: Chain): (r: Chain)
    ensures c == [] <==> r == []
    ensures c != [] ==> PublicWithStatus(r, 403) && r[1..] == Err(c).cause
  {
    ErrPubHttp(c, 403)
  }

  function ErrPubInternal(c: Chain): (r: Chain)
    ensures c == [] <==> r == []
    ensures c != [] ==> PublicWithStatus(r, 500) && r[1..] == Err(c).cause
  {
    ErrPubHttp(c, 500)
  }

  /**
   * `errPub`: the outermost `Error` of the chain, as an `error`, when that
   * `Error` is public; nil otherwise, even if a deeper `Error` is public.
   */
  function PublicPart(c: Chain): (r: Chain)
    ensures r != [] <==> exists i :: FirstAt(c, AppKind, i) && c[i].meta.isPublic
    ensures forall i :: FirstAt(c, AppKind, i) && c[i].meta.isPublic ==> r == c[i..]
  {
    match AsError(c)
    case None => []
    case Some(e) =>
      if e.meta.isPublic then
        assert forall i :: FirstAt(c, AppKind, i) ==> ToChain(e) == c[i..] by {
          forall i | FirstAt(c, AppKind, i) ensures ToChain(e) == c[i..] {
            assert c[i..] == [c[i]] + c[i + 1..];
          }
        }
        ToChain(e)
      else []
  }

  /** A private outermost `Error` hides every deeper public one. */
  lemma PublicPartStopsAtFirst(c: Chain, i: int, j: int)
    requires FirstAt(c, AppKind, i) && !c[i].meta.isPublic
    requires i < j < |c| && c[j].App? && c[j].meta.isPublic
    ensures PublicPart(c) == []
  {
    forall k | FirstAt(c, AppKind, k) ensures k == i {
      FirstOfIff(c, AppKind, k);
      FirstOfIff(c, AppKind, i);
    }
  }

  /** `errPub(err) == err` exactly when the outermost layer is itself a public `Error`. */
  lemma {:induction false} PublicPartIsSelf(c: Chain)
    requires c != []
    ensures PublicPart(c) == c <==> c[0].App? && c[0].meta.isPublic
  {
    if c[0].App? && c[0].meta.isPublic {
      assert FirstAt(c, AppKind, 0);
    }
    if PublicPart(c) == c {
      var i :| FirstAt(c, AppKind, i) && c[i].meta.isPublic;
      assert |c[i..]| == |c|;
    }
  }

  /** `isErrWithHttpStatus`: the outermost `Error` has this exact raw status. */
  predicate IsErrWithHttpStatus(c: Chain, status: int)
    ensures IsErrWithHttpStatus(c, status) <==> exists i :: FirstAt(c, AppKind, i) && c[i].meta.httpStatus == status
  {
    var e := AsError(c);
    e.Some? && e.value.meta.httpStatus == status
  }

  /** `isErrWithDbCode`: the outermost `Error` has this exact DB code. */
  predicate IsErrWithDbCode(c: Chain, code: string)
    ensures IsErrWithDbCode(c, code) <==> exists i :: FirstAt(c, AppKind, i) && c[i].meta.dbCode == code
  {
    var e := AsError(c);
    e.Some? && e.value.meta.dbCode == code
  }

  /** `isErrWithDbCodePrefix`: the outermost `Error`'s DB code starts with `prefix`. */
  predicate IsErrWithDbCodePrefix(c: Chain, prefix: string)
    ensures IsErrWithDbCodePrefix(c, prefix) <==> exists i :: FirstAt(c, AppKind, i) && HasPrefix(c[i].meta.dbCode, prefix)
  {
    var e := AsError(c);
    e.Some? && HasPrefix(e.value.meta.dbCode, prefix)
  }

  /** `isErrNotFound`: the outermost `Error` says 404, or the chain holds `sql.ErrNoRows`. */
  predicate IsErrNotFound(c: Chain)
    ensures IsErrNotFound(c) <==> (exists i :: FirstAt(c, AppKind, i) && c[i].meta.httpStatus == 404) || Sent(NoRows) in c
  {
    IsErrWithHttpStatus(c, 404) || Is(c, NoRows)
  }

  /** `isErrUnauthenticated`: the outermost `Error` says 401. */
  predicate IsErrUnauthenticated(c: Chain)
    ensures IsErrUnauthenticated(c) <==> exists i :: FirstAt(c, AppKind, i) && c[i].meta.httpStatus == 401
  {
    IsErrWithHttpStatus(c, 401)
  }

  /** `isPgErrWithCode`: the outermost Postgres error has this code. */
  predicate IsPgErrWithCode(c: Chain, code: string)
    ensures IsPgErrWithCode(c, code) <==> exists i :: FirstAt(c, PgKind, i) && c[i].pg.code == code
  {
    var pg := AsPg(c);
    pg.Some? && pg.value.code == code
  }

  /** `isPgErrWithConstraint`: the outermost Postgres error names this constraint. */
  predicate IsPgErrWithConstraint(c: Chain, name: string)
    ensures IsPgErrWithConstraint(c, name) <==> exists i :: FirstAt(c, PgKind, i) && c[i].pg.constraint == name
  {
    var pg := AsPg(c);
    pg.Some? && pg.value.constraint == name
  }

  /** `isErrDbConstraint`: the outermost Postgres error names some constraint. */
  predicate IsErrDbConstraint(c: Chain)
    ensures IsErrDbConstraint(c) <==> exists i :: FirstAt(c, PgKind, i) && c[i].pg.constraint != ""
  {
    var pg := AsPg(c);
    pg.Some? && pg.value.constraint != ""
  }

  /** `isErrDbError`: the outermost `Error` carries a `db.error.` code. */
  predicate IsErrDbError(c: Chain)
    ensures IsErrDbError(c) <==> exists i :: FirstAt(c, AppKind, i) && HasPrefix(c[i].meta.dbCode, "db.error.")
  {
    IsErrWithDbCodePrefix(c, DbCodeErrorPrefix)
  }

  /** The text Go's `net` package gives a canceled operation. */
  const NetCanceledText := "operation was canceled"

  /** `isErrNetCancel`: the error's text mentions a canceled operation; nil never does. */
  predicate IsErrNetCancel(c: Chain)
    ensures IsErrNetCancel(c) <==> c != [] && Index(ChainText(c), NetCanceledText) >= 0
    ensures IsErrNetCancel(c) ==> OccursAt(ChainText(c), NetCanceledText, Index(ChainText(c), NetCanceledText))
  {
    var t := ChainText(c);
    var found := Contains(t, NetCanceledText);
    assert found <==> Index(t, NetCanceledText) >= 0;
    c != [] && found
  }

  /** `isErrDisconnect`: the outermost errno is a connection reset or a broken pipe. */
  predicate IsErrDisconnect(c: Chain)
    ensures IsErrDisconnect(c) <==> exists i :: FirstAt(c, ErrnoKind, i) && (c[i].errno == ECONNRESET || c[i].errno == EPIPE)
  {
    var errno := AsErrno(c);
    errno.Some? && (errno.value == ECONNRESET || errno.value == EPIPE)
  }

  /** `isErrNetDeadlineExceeded`: the outermost network error is a read, and a deadline was exceeded somewhere in the chain. */
  predicate IsErrNetDeadlineExceeded(c: Chain)
    ensures IsErrNetDeadlineExceeded(c) <==>
      (exists i :: FirstAt(c, NetOpKind, i) && c[i].op == "read") && Sent(DeadlineExceeded) in c
  {
    var op := AsNetOp(c);
    op.Some? && op.value == "read" && Is(c, DeadlineExceeded)
  }

  /** `isErrCancel`: cancellation, a finished transaction, a canceled query, or cancellation text. */
  predicate IsErrCancel(c: Chain)
    ensures IsErrCancel(c) <==>
      || Sent(Canceled) in c
      || Sent(TxDone) in c
      || (exists i :: FirstAt(c, PgKind, i) && c[i].pg.code == "57014")
      || IsErrNetCancel(c)
  {
    Is(c, Canceled) || Is(c, TxDone) || IsPgErrWithCode(c, QueryCanceled) || IsErrNetCancel(c)
  }

  /** `isErrPossiblyCancelRelated`: any one of seven independent signs of client disconnect. */
  predicate IsErrPossiblyCancelRelated(c: Chain)
    ensures IsErrPossiblyCancelRelated(c) <==>
      || Sent(Canceled) in c
      || Sent(TxDone) in c
      || (exists i :: FirstAt(c, PgKind, i) && c[i].pg.code == "57014")
      || (c != [] && Contains(ChainText(c), NetCanceledText))
      || (exists i :: FirstAt(c, ErrnoKind, i) && (c[i].errno == 104 || c[i].errno == 32))
      || ((exists i :: FirstAt(c, NetOpKind, i) && c[i].op == "read") && Sent(DeadlineExceeded) in c)
      || Sent(EOF) in c
  {
    IsErrCancel(c) || IsErrDisconnect(c) || IsErrNetDeadlineExceeded(c) || Is(c, EOF)
  }

  /**
   * `shouldLogError`: nil is never logged; an error met while the context is
   * canceled is not logged when the context serves an HTTP request or the
   * error looks like cancellation; everything else is logged.
   */
  predicate ShouldLogError(ctx: Ctx, c: Chain)
    ensures ShouldLogError(ctx, c) <==>
      c != [] && !(IsCtxCanceled(ctx) && (IsCtxHttp(ctx) || IsErrPossiblyCancelRelated(c)))
  {
    if c == [] then false
    else if IsCtxCanceled(ctx) && (IsCtxHttp(ctx) || IsErrPossiblyCancelRelated(c)) then false
    else true
  }

  /** A background job's canceled context still logs an error that does not look like cancellation. */
  lemma BackgroundCancelStillLogs(ctx: Ctx, c: Chain)
    requires c != [] && IsCtxCanceled(ctx) && !IsCtxHttp(ctx) && !IsErrPossiblyCancelRelated(c)
    ensures ShouldLogError(ctx, c)
  {
  }

  /**
   * `errNorm`: a routing error on top becomes a public `Error` with the
   * routing error's cause and status; every other value passes unchanged.
   */
  function ErrNorm(c: Chain): (r: Chain)
    ensures c != [] && c[0].Rout? ==> r == ToChain(Error(Meta(true, c[0].routStatus, "", "", ""), c[1..]))
    ensures !(c != [] && c[0].Rout?) ==> r == c
  {
    if c != [] && c[0].Rout? then ToChain(Error(Meta(true, c[0].routStatus, "", "", ""), c[1..]))
    else c
  }

  /** A normalised routing error is disclosed as itself, with the routing status when it is positive. */
  lemma ErrNormDisclosesRouting(c: Chain)
    requires c != [] && c[0].Rout?
    ensures PublicPart(ErrNorm(c)) == ErrNorm(c)
    ensures c[0].routStatus > 0 ==> HttpStatusCode(ErrNorm(c)[0].meta) == c[0].routStatus
  {
    PublicPartIsSelf(ErrNorm(c));
  }

  /** Normalising twice is normalising once. */
  lemma ErrNormIdempotent(c: Chain)
    ensures ErrNorm(ErrNorm(c)) == ErrNorm(c)
  {
  }
}
