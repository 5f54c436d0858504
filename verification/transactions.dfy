/**
 * Transaction scoping: `withDbTx`, `beginTxCtx` and `beginTx` (`utils_db.go`).
 *
 * A callback either reuses the transaction already stored in its context or
 * runs inside a fresh one that is begun, handed to the callback through a
 * child context, and committed only when the callback succeeds. A failed or
 * panicking callback leaves the fresh transaction uncommitted; cancelling the
 * child context then rolls it back.
 *
 * The callback is described by a small language, `Body`, so that nested
 * `withDbTx` calls can be followed. What happens to the transaction is
 * recorded as a trace of events.
 */
module Transactions {
  import opened Wrappers
  import opened ErrorModel
  import opened ErrorUtils
  import opened Contexts

  /** What a callback passed to `withDbTx` does. */
  datatype Body =
    | Return(err: Chain)              // returns this error (nil for success)
    | Panic(value: Failure)           // panics with this error value
    | Nested(inner: Body, cont: Body) // calls `withDbTx(ctx, inner)`, returns its error if any, else goes on with `cont`

  /** What the core does with transactions, in order. */
  datatype Event =
    | Begin(tx: TxId)                 // a fresh transaction was started
    | BeginFailed                     // starting one failed
    | Enter(tx: TxId)                 // a callback was invoked with this transaction
    | Commit(tx: TxId, ok: bool)      // a commit was issued, and whether it succeeded

  /** The database as the core sees it: the transaction it would hand out and the outcomes of begin and commit. */
  datatype Db = Db(next: TxId, beginErr: Chain, commitErr: Chain)

  /** The error a scope returns and the events it caused. */
  datatype Run = Run(err: Chain, trace: seq<Event>)

  const MissingCallback := "missing callback argument"
  const BeginFailedMsg := "failed to start DB transaction"
  const CommitFailedMsg := "failed to commit transaction"

  /**
   * `beginTx`: the new transaction, or the driver's error wrapped with
   * `BeginFailedMsg`.
   */
  function BeginTx(db: Db): (r: Chain)
    ensures r == [] <==> db.beginErr == []
    ensures r != [] ==> ChainText(r) == BeginFailedMsg + ": " + ChainText(db.beginErr)
  {
    Wrap(db.beginErr, BeginFailedMsg)
  }

  /**
   * `withDbTx(ctx, fun)`. A nil callback is an error; otherwise the callback
   * runs in `Scope`. Every panic inside is recovered into the returned error.
   */
  function WithDbTx(ctx: Ctx, fun: Option<Body>, db: Db): (r: Run)
    ensures fun.None? ==> r == Run([Msg(MissingCallback)], [])
    ensures fun.Some? ==> r == Scope(ctx, fun.value, db)
  {
    match fun
    case None => Run([Msg(MissingCallback)], [])
    case Some(b) => Scope(ctx, b, db)
  }

  /** `withDbTx` with a callback: reuse the ambient transaction, or begin, run and commit a fresh one. */
  function Scope(ctx: Ctx, b: Body, db: Db): Run
    decreases b, 1
  {
    match CtxDbTx(ctx)
    case Some(t) =>
      var x := Exec(ctx, b, db);
      Run(x.err, [Enter(t)] + x.trace)
    case None =>
      if BeginTx(db) != [] then Run(BeginTx(db), [BeginFailed])
      else
        var child := CtxWithDbTx(ctx, db.next);
        var x := Exec(child, b, db);
        if x.err != [] then Run(x.err, [Begin(db.next), Enter(db.next)] + x.trace)
        else Run(Wrap(db.commitErr, CommitFailedMsg),
                 [Begin(db.next), Enter(db.next)] + x.trace + [Commit(db.next, db.commitErr == [])])
  }

  /** The callback's own run, given the context it was called with; a panic surfaces as its value. */
  function Exec(ctx: Ctx, b: Body, db: Db): Run
    decreases b, 0
  {
    match b
    case Return(e) => Run(e, [])
    case Panic(v) => Run(v, [])
    case Nested(inner, cont) =>
      var r1 := Scope(ctx, inner, db);
      if r1.err != [] then r1
      else
        var r2 := Exec(ctx, cont, db);
        Run(r2.err, r1.trace + r2.trace)
  }

  /**
   * Whether the callback itself ended in a panic rather than a return. A panic
   * inside a nested scope is recovered by that scope and comes back as an
   * error, which the callback then returns.
   */
  function Panicked(ctx: Ctx, b: Body, db: Db): (r: bool)
    ensures r ==> Exec(ctx, b, db).err != []
    decreases b
  {
    match b
    case Return(_) => false
    case Panic(_) => true
    case Nested(inner, cont) => Scope(ctx, inner, db).err == [] && Panicked(ctx, cont, db)
  }

  /** Every event of the trace is the callback entering transaction `t`. */
  predicate OnlyEnters(trace: seq<Event>, t: TxId) {
    forall i :: 0 <= i < |trace| ==> trace[i] == Enter(t)
  }

  /** The number of commits issued in a trace. */
  function Commits(trace: seq<Event>): nat {
    if trace == [] then 0 else (if trace[0].Commit? then 1 else 0) + Commits(trace[1..])
  }

  /** The number of transactions begun in a trace. */
  function Begins(trace: seq<Event>): nat {
    if trace == [] then 0 else (if trace[0].Begin? then 1 else 0) + Begins(trace[1..])
  }

  lemma {:induction false} CountsAppend(a: seq<Event>, b: seq<Event>)
    ensures Commits(a + b) == Commits(a) + Commits(b)
    ensures Begins(a + b) == Begins(a) + Begins(b)
    decreases |a|
  {
    if a == [] {
      assert a + b == b;
    } else {
      CountsAppend(a[1..], b);
      assert (a + b)[0] == a[0];
      assert (a + b)[1..] == a[1..] + b;
    }
  }

  lemma {:induction false} CountsOnlyEnters(trace: seq<Event>, t: TxId)
    requires OnlyEnters(trace, t)
    ensures Commits(trace) == 0 && Begins(trace) == 0
    decreases |trace|
  {
    if trace != [] {
      CountsOnlyEnters(trace[1..], t);
    }
  }

  /**
   * Under an ambient transaction `t`, a scope and a callback run only ever
   * enter `t`: nothing is begun and nothing is committed, however deeply the
   * calls nest.
   */
  lemma {:induction false} AmbientOnlyEnters(ctx: Ctx, b: Body, db: Db, t: TxId)
    requires CtxDbTx(ctx) == Some(t)
    ensures OnlyEnters(Scope(ctx, b, db).trace, t)
    ensures OnlyEnters(Exec(ctx, b, db).trace, t)
    decreases b
  {
    match b
    case Return(_) =>
    case Panic(_) =>
    case Nested(inner, cont) =>
      AmbientOnlyEnters(ctx, inner, db, t);
      AmbientOnlyEnters(ctx, cont, db, t);
  }

  /**
   * An ambient transaction is reused: the callback runs with it, its error is
   * returned verbatim, and no transaction is begun or committed.
   */
  lemma AmbientReuse(ctx: Ctx, b: Body, db: Db, t: TxId)
    requires CtxDbTx(ctx) == Some(t)
    ensures Scope(ctx, b, db).err == Exec(ctx, b, db).err
    ensures Scope(ctx, b, db).trace[0] == Enter(t)
    ensures OnlyEnters(Scope(ctx, b, db).trace, t)
    ensures Commits(Scope(ctx, b, db).trace) == 0 && Begins(Scope(ctx, b, db).trace) == 0
  {
    AmbientOnlyEnters(ctx, b, db, t);
    CountsOnlyEnters(Scope(ctx, b, db).trace, t);
  }

  /** A failed begin is returned wrapped, and the callback never runs. */
  lemma BeginFailure(ctx: Ctx, b: Body, db: Db)
    requires CtxDbTx(ctx) == None && db.beginErr != []
    ensures Scope(ctx, b, db).err != []
    ensures Scope(ctx, b, db).trace == [BeginFailed]
    ensures ChainText(Scope(ctx, b, db).err) == BeginFailedMsg + ": " + ChainText(db.beginErr)
  {
  }

  /**
   * A fresh transaction is begun once and committed at most once: exactly
   * when the callback succeeded, as the last event. Everything in between is
   * the callback, and every nested scope, entering that same transaction.
   */
  lemma FreshScope(ctx: Ctx, b: Body, db: Db)
    requires CtxDbTx(ctx) == None && db.beginErr == []
    ensures var r := Scope(ctx, b, db);
      var x := Exec(CtxWithDbTx(ctx, db.next), b, db);
      && r.trace[0] == Begin(db.next)
      && Begins(r.trace) == 1
      && Commits(r.trace) == (if x.err == [] then 1 else 0)
      && (x.err == [] ==> r.trace[|r.trace| - 1] == Commit(db.next, db.commitErr == []))
      && (x.err != [] ==> r.err == x.err)
      && OnlyEnters(r.trace[1..|r.trace| - (if x.err == [] then 1 else 0)], db.next)
  {
    var child := CtxWithDbTx(ctx, db.next);
    var r := Scope(ctx, b, db);
    var x := Exec(child, b, db);
    AmbientOnlyEnters(child, b, db, db.next);
    CountsOnlyEnters(x.trace, db.next);
    var head := [Begin(db.next), Enter(db.next)];
    CountsAppend(head, x.trace);
    assert Commits(head) == 0 && Begins(head) == 1 by {
      assert head[1..] == [Enter(db.next)];
      assert head[1..][1..] == [];
    }
    if x.err == [] {
      var last := [Commit(db.next, db.commitErr == [])];
      CountsAppend(head + x.trace, last);
      assert Commits(last) == 1 && Begins(last) == 0 by {
        assert last[1..] == [];
      }
      assert r.trace[1..|r.trace| - 1] == [Enter(db.next)] + x.trace;
    } else {
      assert r.trace[1..] == [Enter(db.next)] + x.trace;
    }
  }

  /**
   * A successful callback in a fresh transaction yields nil exactly when the
   * commit succeeds; a failed commit becomes the scope's error, even though
   * the callback itself succeeded.
   */
  lemma CommitDecides(ctx: Ctx, b: Body, db: Db)
    requires CtxDbTx(ctx) == None && db.beginErr == []
    requires Exec(CtxWithDbTx(ctx, db.next), b, db).err == []
    ensures Scope(ctx, b, db).err == [] <==> db.commitErr == []
    ensures db.commitErr != [] ==> ChainText(Scope(ctx, b, db).err) == CommitFailedMsg + ": " + ChainText(db.commitErr)
  {
  }

  /** A panic in the callback becomes the scope's error and nothing is committed. */
  lemma PanicBecomesError(ctx: Ctx, v: Failure, db: Db)
    requires CtxDbTx(ctx).Some? || db.beginErr == []
    ensures Scope(ctx, Panic(v), db).err == v
    ensures Commits(Scope(ctx, Panic(v), db).trace) == 0
  {
    if CtxDbTx(ctx).Some? {
      AmbientReuse(ctx, Panic(v), db, CtxDbTx(ctx).value);
    } else {
      FreshScope(ctx, Panic(v), db);
    }
  }

  /**
   * A nested `withDbTx` inside a fresh scope joins the outer transaction: the
   * whole run begins one transaction and commits it at most once.
   */
  lemma NestedJoins(ctx: Ctx, inner: Body, cont: Body, db: Db)
    requires CtxDbTx(ctx) == None && db.beginErr == []
    ensures Begins(Scope(ctx, Nested(inner, cont), db).trace) == 1
    ensures Commits(Scope(ctx, Nested(inner, cont), db).trace) <= 1
    ensures Scope(CtxWithDbTx(ctx, db.next), inner, db).trace[0] == Enter(db.next)
  {
    FreshScope(ctx, Nested(inner, cont), db);
    AmbientReuse(CtxWithDbTx(ctx, db.next), inner, db, db.next);
  }
}
