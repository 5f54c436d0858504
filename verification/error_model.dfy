/**
 * The application's `Error` record (`types_err.go`) and the Go error chains it
 * lives in.
 *
 * A Go error value is modelled as the list of layers that `errors.Unwrap`
 * visits, outermost first; the empty chain is nil. Leaf kinds (a Postgres
 * error, a sentinel, an errno) end a chain. An app `Error` is a layer
 * carrying the record's fields other than `Cause`; its cause is the rest of
 * the chain after it.
 */
module ErrorModel {
  import opened Wrappers
  import opened Text

  /** Sentinel error values that `errors.Is` compares against. */
  datatype Sentinel =
    | NoRows            // sql.ErrNoRows
    | Canceled          // context.Canceled
    | TxDone            // sql.ErrTxDone
    | EOF               // io.EOF
    | DeadlineExceeded  // os.ErrDeadlineExceeded

  /** The fields of a `*pq.Error` that the core reads. */
  datatype PgError = PgError(
    code: string,
    constraint: string,
    position: string,
    where: string,
    hint: string,
    internalQuery: string,
    message: string)

  /** The fields of `Error` other than `Cause`. */
  datatype Meta = Meta(
    isPublic: bool,
    httpStatus: int,
    dbCode: string,
    dbQuery: string,
    dbContext: string)

  /** The zero value of every field but `Cause`. */
  const NoMeta := Meta(false, 0, "", "", "")

  /** One link of an error chain. */
  datatype Layer =
    | App(meta: Meta)                      // the application's `Error`
    | Pg(pg: PgError)                      // `*pq.Error`
    | Sent(sentinel: Sentinel)             // a sentinel value
    | Errno(errno: int, errnoText: string) // `syscall.Errno` and the text the platform gives it
    | NetOp(op: string, detail: string)    // `*net.OpError`; `detail` is its rendered network/address part
    | Rout(routStatus: int)                // `rout.Err`; its cause is the rest of the chain
    | Msg(msg: string)                     // `errors.New` when last, `errors.WithMessage` otherwise
    | Stack                                // `errors.WithStack`: adds a stack trace and no text

  /** A Go `error`: the empty chain is nil. */
  type Chain = seq<Layer>

  /** A non-nil `error`. */
  type Failure = c: Chain | |c| > 0 witness [Msg("")]

  /** An `Error` value: its fields and its `Cause` (the empty chain when `Cause` is nil). */
  datatype Error = Error(meta: Meta, cause: Chain)

  /** The `Error` seen as an `error` value. */
  function ToChain(e: Error): (c: Failure)
    ensures c[0] == App(e.meta)
  {
    [App(e.meta)] + e.cause
  }

  /** `Error.Unwrap`: exactly the cause. */
  function Unwrap(e: Error): (c: Chain)
    ensures ToChain(e) == [App(e.meta)] + c
  {
    e.cause
  }

  /** The kinds of layer `errors.As` can be asked for. */
  datatype Kind = AppKind | PgKind | ErrnoKind | NetOpKind

  predicate OfKind(l: Layer, k: Kind) {
    match k
    case AppKind => l.App?
    case PgKind => l.Pg?
    case ErrnoKind => l.Errno?
    case NetOpKind => l.NetOp?
  }

  /** Layer `i` is the outermost layer of kind `k`. */
  ghost predicate FirstAt(c: Chain, k: Kind, i: int) {
    0 <= i < |c| && OfKind(c[i], k) && forall j :: 0 <= j < i ==> !OfKind(c[j], k)
  }

  /** `errors.As`: the index of the outermost layer of kind `k`, if any. */
  function FirstOf(c: Chain, k: Kind): (r: Option<nat>)
    ensures r.Some? ==> FirstAt(c, k, r.value)
    ensures r.None? ==> forall j :: 0 <= j < |c| ==> !OfKind(c[j], k)
  {
    if c == [] then None
    else if OfKind(c[0], k) then Some(0)
    else match FirstOf(c[1..], k)
      case None => None
      case Some(i) => Some(i + 1)
  }

  /** At most one layer is the outermost of its kind, and `FirstOf` finds it. */
  lemma FirstOfIff(c: Chain, k: Kind, i: int)
    ensures FirstOf(c, k) == Some(i) <==> FirstAt(c, k, i)
  {
    if FirstAt(c, k, i) {
      assert FirstOf(c, k).Some?;
    }
  }

  /** `errors.As(err, &Error{})`: the outermost app `Error`, with the rest of the chain as its cause. */
  function AsError(c: Chain): (r: Option<Error>)
    ensures r.Some? <==> exists i :: FirstAt(c, AppKind, i)
    ensures forall i :: FirstAt(c, AppKind, i) ==> r == Some(Error(c[i].meta, c[i + 1..]))
  {
    match FirstOf(c, AppKind)
    case None => None
    case Some(i) =>
      forall j | FirstAt(c, AppKind, j) ensures j == i { FirstOfIff(c, AppKind, j); }
      Some(Error(c[i].meta, c[i + 1..]))
  }

  /** `errors.As(err, &pgErr)`: the outermost Postgres error. */
  function AsPg(c: Chain): (r: Option<PgError>)
    ensures r.Some? <==> exists i :: FirstAt(c, PgKind, i)
    ensures forall i :: FirstAt(c, PgKind, i) ==> r == Some(c[i].pg)
  {
    match FirstOf(c, PgKind)
    case None => None
    case Some(i) =>
      forall j | FirstAt(c, PgKind, j) ensures j == i { FirstOfIff(c, PgKind, j); }
      Some(c[i].pg)
  }

  /** `errors.As(err, &errno)`: the outermost errno. */
  function AsErrno(c: Chain): (r: Option<int>)
    ensures r.Some? <==> exists i :: FirstAt(c, ErrnoKind, i)
    ensures forall i :: FirstAt(c, ErrnoKind, i) ==> r == Some(c[i].errno)
  {
    match FirstOf(c, ErrnoKind)
    case None => None
    case Some(i) =>
      forall j | FirstAt(c, ErrnoKind, j) ensures j == i { FirstOfIff(c, ErrnoKind, j); }
      Some(c[i].errno)
  }

  /** `errors.As(err, &opErr)`: the `Op` of the outermost network operation error. */
  function AsNetOp(c: Chain): (r: Option<string>)
    ensures r.Some? <==> exists i :: FirstAt(c, NetOpKind, i)
    ensures forall i :: FirstAt(c, NetOpKind, i) ==> r == Some(c[i].op)
  {
    match FirstOf(c, NetOpKind)
    case None => None
    case Some(i) =>
      forall j | FirstAt(c, NetOpKind, j) ensures j == i { FirstOfIff(c, NetOpKind, j); }
      Some(c[i].op)
  }

  /** `errors.Is(err, s)` for a sentinel `s`. */
  predicate Is(c: Chain, s: Sentinel) {
    Sent(s) in c
  }

  /** `Error.HttpStatusCode`: an explicit positive status wins, then a DB code means 400, else 500. */
  function HttpStatusCode(m: Meta): (r: int)
    ensures r > 0
    ensures m.httpStatus > 0 ==> r == m.httpStatus
    ensures m.httpStatus <= 0 ==> (r == 400 <==> m.dbCode != "")
    ensures m.httpStatus <= 0 ==> (r == 500 <==> m.dbCode == "")
  {
    if m.httpStatus > 0 then m.httpStatus
    else if m.dbCode != "" then 400
    else 500
  }

  /** The status part of the shallow text: present only for a non-zero raw status. */
  function StatusPart(m: Meta): string {
    if m.httpStatus != 0 then " (HTTP status " + IntToString(m.httpStatus) + ")" else ""
  }

  /** The DB code part of the shallow text: present only for a non-empty code. */
  function CodePart(m: Meta): string {
    if m.dbCode != "" then " (DB code " + m.dbCode + ")" else ""
  }

  /**
   * `writeErrorShallow`: "error", then the raw `HttpStatus` when it is not 0,
   * then the DB code when there is one, in that order.
   */
  function Shallow(m: Meta): (r: string)
    ensures HasPrefix(r, "error")
  {
    ConcatEnds("error" + StatusPart(m), CodePart(m));
    ConcatEnds("error", StatusPart(m));
    "error" + StatusPart(m) + CodePart(m)
  }

  /**
   * The layout of the shallow text: it is bare "error" exactly when neither
   * status nor code is set; a non-zero raw status (not the resolved one)
   * follows "error" directly; the DB code comes last.
   */
  lemma ShallowLayout(m: Meta)
    ensures Shallow(m) == "error" <==> m.httpStatus == 0 && m.dbCode == ""
    ensures m.httpStatus != 0 ==> HasPrefix(Shallow(m), "error (HTTP status " + IntToString(m.httpStatus) + ")")
    ensures m.dbCode != "" ==> HasSuffix(Shallow(m), " (DB code " + m.dbCode + ")")
    ensures m.httpStatus == 0 && m.dbCode != "" ==> Shallow(m) == "error (DB code " + m.dbCode + ")"
  {
    var st := StatusPart(m);
    var cd := CodePart(m);
    assert |Shallow(m)| == 5 + |st| + |cd|;
    assert |st| == 0 <==> m.httpStatus == 0;
    assert |cd| == 0 <==> m.dbCode == "";
    if m.httpStatus != 0 {
      var x := IntToString(m.httpStatus);
      ConcatEnds("error" + st, cd);
      assert "error" + st == "error (HTTP status " + x + ")";
    }
    if m.dbCode != "" {
      ConcatEnds("error" + st, cd);
    }
    if m.httpStatus == 0 && m.dbCode != "" {
      assert "error" + st + cd == "error" + cd;
    }
  }

  /** `Error.Error()`: the shallow text, then ": " and the cause's text when there is a cause. */
  function ErrorText(e: Error): (r: string)
    ensures HasPrefix(r, Shallow(e.meta))
    ensures r == Shallow(e.meta) <==> e.cause == []
    ensures e.cause != [] ==> HasPrefix(r, Shallow(e.meta) + ": ")
    decreases |e.cause|, 1
  {
    var s := Shallow(e.meta);
    if e.cause == [] then s
    else
      var r := s + ": " + ChainText(e.cause);
      assert r[..|s|] == s && r[..|s + ": "|] == s + ": ";
      r
  }

  /** The text of the library error values (`Error()` of each sentinel). */
  function SentinelText(s: Sentinel): string {
    match s
    case NoRows => "sql: no rows in result set"
    case Canceled => "context canceled"
    case TxDone => "sql: transaction has already been committed or rolled back"
    case EOF => "EOF"
    case DeadlineExceeded => "i/o timeout"
  }

  /** `err.Error()` for a whole chain; nil has no text. */
  function ChainText(c: Chain): string
    decreases |c|, 0
  {
    if c == [] then ""
    else match c[0]
      case App(m) => ErrorText(Error(m, c[1..]))
      case Pg(pg) => "pq: " + pg.message
      case Sent(s) => SentinelText(s)
      case Errno(_, text) => text
      case NetOp(op, detail) => op + detail + ": " + ChainText(c[1..])
      case Rout(_) => ChainText(c[1..])
      case Msg(m) => if |c| == 1 then m else m + ": " + ChainText(c[1..])
      case Stack => ChainText(c[1..])
  }

  /**
   * `writeErrorVerbose`: the shallow text, then the query and context blocks
   * when present, then the cause. `causeDetail` is the `%+v` rendering of the
   * cause, which is left abstract.
   */
  function VerboseText(e: Error, causeDetail: string): (r: string)
    ensures HasPrefix(r, Shallow(e.meta))
    ensures e.meta.dbQuery != "" ==> Contains(r, e.meta.dbQuery)
    ensures e.meta.dbContext != "" ==> Contains(r, e.meta.dbContext)
    ensures e.cause != [] ==> Contains(r, "cause: " + causeDetail)
  {
    var s := Shallow(e.meta);
    var q := if e.meta.dbQuery != "" then "DB query or statement:\n" + e.meta.dbQuery + "\n" else "";
    var x := if e.meta.dbContext != "" then "DB context:\n" + e.meta.dbContext + "\n" else "";
    var k := if e.cause != [] then "cause: " + causeDetail else "";
    var r := s + (q + (x + k));
    assert r[..|s|] == s;
    assert e.meta.dbQuery != "" ==> Contains(r, e.meta.dbQuery) by {
      if e.meta.dbQuery != "" {
        ContainsInfix("DB query or statement:\n", e.meta.dbQuery, "\n");
        ContainsInConcat(q, x + k, e.meta.dbQuery);
        ContainsInConcat(s, q + (x + k), e.meta.dbQuery);
      }
    }
    assert e.meta.dbContext != "" ==> Contains(r, e.meta.dbContext) by {
      if e.meta.dbContext != "" {
        ContainsInfix("DB context:\n", e.meta.dbContext, "\n");
        ContainsInConcat(x, k, e.meta.dbContext);
        ContainsInConcat(q, x + k, e.meta.dbContext);
        ContainsInConcat(s, q + (x + k), e.meta.dbContext);
      }
    }
    assert e.cause != [] ==> Contains(r, "cause: " + causeDetail) by {
      if e.cause != [] {
        ContainsInfix("", k, "");
        assert "" + k + "" == k;
        ContainsInConcat(x, k, k);
        ContainsInConcat(q, x + k, k);
        ContainsInConcat(s, q + (x + k), k);
      }
    }
    r
  }

  /**
   * `Error()` never depends on `IsPublic`, `DbQuery` or `DbContext`: two
   * errors that agree on status, DB code and cause render identically.
   */
  lemma ErrorTextHidesDiagnostics(e1: Error, e2: Error)
    requires e1.meta.httpStatus == e2.meta.httpStatus && e1.meta.dbCode == e2.meta.dbCode
    requires e1.cause == e2.cause
    ensures ErrorText(e1) == ErrorText(e2)
  {
    assert e1.meta.(isPublic := e2.meta.isPublic, dbQuery := e2.meta.dbQuery, dbContext := e2.meta.dbContext) == e2.meta;
  }

  /** The text of an `Error` used as an `error` is its `Error()` text. */
  lemma ChainTextOfError(e: Error)
    ensures ChainText(ToChain(e)) == ErrorText(e)
  {
    assert ToChain(e)[1..] == e.cause;
  }
}
