/**
 * The DB error classifier `decodeDbErr` (`utils_db.go`): it turns whatever
 * the driver returned into the application's error model, deciding what may
 * be disclosed to a client and attaching the DB diagnostics.
 */
module DbErrors {
  import opened Wrappers
  import opened Text
  import opened ErrorModel
  import opened ErrorUtils
  import opened DbCodeScan
  import opened Ints

  /** The number of runes kept on each side of a syntax error's position. */
  const HintOffset := 128

  /**
   * The rune window `decodeDbErr` cuts around the reported position of a
   * syntax error; `pos + HintOffset` is computed in a 64-bit `int`.
   */
  function SyntaxWindow(query: string, pos: int): (r: string)
    requires 0 < pos <= MaxInt64
    ensures |r| <= |query| && Contains(query, r)
  {
    SliceRunes(query, pos - HintOffset, Wrap64(pos + HintOffset))
  }

  /** Well inside the query, the window is the `HintOffset` runes on either side of `pos`. */
  lemma SyntaxWindowInside(query: string, pos: int)
    requires HintOffset <= pos && pos + HintOffset <= |query| && pos + HintOffset <= MaxInt64
    ensures SyntaxWindow(query, pos) == query[pos - HintOffset..pos + HintOffset]
  {
  }

  /** Near the start of the query, the window keeps everything up to `pos + HintOffset`. */
  lemma SyntaxWindowNearStart(query: string, pos: int)
    requires 0 < pos < HintOffset && pos + HintOffset < |query|
    ensures SyntaxWindow(query, pos) == query[..pos + HintOffset]
  {
  }

  /**
   * The 64-bit overflow of `pos + HintOffset` never changes the window for a
   * query shorter than 2^63 runes: a wrapped (negative) end and an end past
   * the query both leave the tail alone.
   */
  lemma SyntaxWindowOverflowHarmless(query: string, pos: int)
    requires 0 < pos <= MaxInt64 && |query| <= MaxInt64
    ensures SyntaxWindow(query, pos) == SliceRunes(query, pos - HintOffset, pos + HintOffset)
  {
  }

  /**
   * The `DbContext` of a Postgres error: `Where`, else `Hint`, else for a
   * syntax error with a positive parsed `Position` the query text around it.
   */
  function PgContext(pg: PgError, query: string): (r: string)
    ensures pg.where != "" ==> r == pg.where
    ensures pg.where == "" && pg.hint != "" ==> r == pg.hint
    ensures pg.where == "" && pg.hint == "" && pg.code == SyntaxError && Atoi(pg.position) > 0 ==>
              r == SyntaxWindow(query, Atoi(pg.position))
    ensures pg.where == "" && pg.hint == "" && !(pg.code == SyntaxError && Atoi(pg.position) > 0) ==> r == ""
    ensures r != "" ==> r == pg.where || r == pg.hint || Contains(query, r)
  {
    var ctx := StrOr([pg.where, pg.hint]);
    assert ctx == (if pg.where != "" then pg.where else pg.hint) by {
      assert [pg.where, pg.hint][1] == pg.hint;
    }
    if pg.code == SyntaxError && ctx == "" then
      var pos := Atoi(pg.position);
      if pos > 0 then SyntaxWindow(query, pos) else ctx
    else ctx
  }

  /** The `Error` built for a Postgres error found in `c`. */
  function PgToError(pg: PgError, c: Failure, query: string): (e: Error)
    ensures e.cause == WithStack(c)
    ensures e.meta.isPublic <==> pg.constraint != "" || pg.code == CheckViolation
    ensures e.meta.httpStatus == 0
    ensures e.meta.dbCode == pg.constraint
    ensures e.meta.dbQuery == pg.internalQuery
    ensures e.meta.dbContext == PgContext(pg, query)
  {
    Error(Meta(pg.constraint != "" || pg.code == CheckViolation, 0, pg.constraint, pg.internalQuery, PgContext(pg, query)),
          WithStack(c))
  }

  /**
   * `decodeDbErr(err, queryStr)`, branch by branch in the order the code tries
   * them: nil, `sql.ErrNoRows` anywhere, a Postgres error anywhere, a quoted
   * DB code in the text, anything else.
   */
  function DecodeDbErr(c: Chain, query: string): (r: Chain)
    ensures r == [] <==> c == []
    ensures Is(c, NoRows) ==> PublicWithStatus(r, 404) && r[1..] == WithStack(c)
    ensures c != [] && !Is(c, NoRows) && AsPg(c).Some? ==> r == ToChain(PgToError(AsPg(c).value, c, query))
    ensures c != [] && !Is(c, NoRows) && AsPg(c).None? && FindDbCode(ChainText(c)).Some? ==>
              r == ToChain(Error(Meta(true, 0, FindDbCode(ChainText(c)).value, "", ""), WithStack(c)))
    ensures c != [] && !Is(c, NoRows) && AsPg(c).None? && FindDbCode(ChainText(c)).None? ==> r == WithStack(c)
  {
    if c == [] then []
    else if Is(c, NoRows) then ErrPubNotFound(WithStack(c))
    else match AsPg(c)
      case Some(pg) => ToChain(PgToError(pg, c, query))
      case None =>
        match FindDbCode(ChainText(c))
        case Some(code) => ToChain(Error(Meta(true, 0, code, "", ""), WithStack(c)))
        case None => WithStack(c)
  }

  /** The classified error still carries the original chain, so no diagnostic is lost. */
  lemma DecodeKeepsChain(c: Chain, query: string)
    requires c != []
    ensures exists k :: 0 <= k <= |DecodeDbErr(c, query)| && DecodeDbErr(c, query)[k..] == c
    ensures forall s :: Is(c, s) ==> Is(DecodeDbErr(c, query), s)
  {
    var r := DecodeDbErr(c, query);
    var k := |r| - |c|;
    assert r[k..] == c;
    forall s | Is(c, s) ensures Is(r, s) {
      var i :| 0 <= i < |c| && c[i] == Sent(s);
      assert r[k + i] == c[i];
    }
  }

  /** `sql.ErrNoRows` anywhere in the chain makes a public 404. */
  lemma DecodeNoRowsFirst(c: Chain, query: string)
    requires Is(c, NoRows)
    ensures IsErrNotFound(DecodeDbErr(c, query))
    ensures PublicPart(DecodeDbErr(c, query)) == DecodeDbErr(c, query)
    ensures HttpStatusCode(DecodeDbErr(c, query)[0].meta) == 404
  {
    PublicPartIsSelf(DecodeDbErr(c, query));
    assert FirstAt(DecodeDbErr(c, query), AppKind, 0);
  }

  /** A named constraint violation is disclosed as a 400 carrying the constraint's name. */
  lemma DecodeNamedConstraint(c: Chain, query: string, i: int)
    requires !Is(c, NoRows) && FirstAt(c, PgKind, i) && c[i].pg.constraint != ""
    ensures PublicPart(DecodeDbErr(c, query)) == DecodeDbErr(c, query)
    ensures PublicWithStatus(DecodeDbErr(c, query), 400)
    ensures IsErrWithDbCode(DecodeDbErr(c, query), c[i].pg.constraint)
  {
    var r := DecodeDbErr(c, query);
    PublicPartIsSelf(r);
    assert FirstAt(r, AppKind, 0);
  }

  /**
   * An unnamed check violation is disclosed, but with no DB code and no
   * status it resolves to 500.
   */
  lemma DecodeUnnamedCheck(c: Chain, query: string, i: int)
    requires !Is(c, NoRows) && FirstAt(c, PgKind, i)
    requires c[i].pg.constraint == "" && c[i].pg.code == CheckViolation
    ensures PublicPart(DecodeDbErr(c, query)) == DecodeDbErr(c, query)
    ensures PublicWithStatus(DecodeDbErr(c, query), 500)
  {
    PublicPartIsSelf(DecodeDbErr(c, query));
  }

  /** Any other Postgres error stays private, whatever diagnostics it carries. */
  lemma DecodeOtherPgPrivate(c: Chain, query: string, i: int)
    requires !Is(c, NoRows) && FirstAt(c, PgKind, i)
    requires c[i].pg.constraint == "" && c[i].pg.code != CheckViolation
    ensures PublicPart(DecodeDbErr(c, query)) == []
  {
    assert FirstAt(DecodeDbErr(c, query), AppKind, 0);
  }

  /** A syntax error without `Where` or `Hint` shows the query around the reported position. */
  lemma DecodeSyntaxContext(c: Chain, query: string, i: int)
    requires !Is(c, NoRows) && FirstAt(c, PgKind, i)
    requires c[i].pg.code == SyntaxError && c[i].pg.where == "" && c[i].pg.hint == ""
    requires Atoi(c[i].pg.position) > 0
    ensures DecodeDbErr(c, query)[0].meta.dbContext == SyntaxWindow(query, Atoi(c[i].pg.position))
  {
  }

  /** Text raised by database code as a quoted `db.error…` or `db.constraint…` token becomes a public 400. */
  lemma DecodeRaisedCode(t: string, query: string)
    requires IsDbCodeToken(t)
    ensures PublicWithStatus(DecodeDbErr([Msg("\"" + t + "\"")], query), 400)
    ensures IsErrWithDbCode(DecodeDbErr([Msg("\"" + t + "\"")], query), t)
    ensures IsErrDbError(DecodeDbErr([Msg("\"" + t + "\"")], query)) <==> HasPrefix(t, DbCodeErrorPrefix)
  {
    var c := [Msg("\"" + t + "\"")];
    FindQuotedToken(t);
    assert ChainText(c) == "\"" + t + "\"";
    assert !Is(c, NoRows) && AsPg(c).None?;
    var r := DecodeDbErr(c, query);
    assert r == ToChain(Error(Meta(true, 0, t, "", ""), WithStack(c)));
    assert FirstAt(r, AppKind, 0);
  }

  /** An unrecognised failure gains a stack trace and nothing else: disclosure does not widen. */
  lemma DecodeOtherUnchangedDisclosure(c: Chain, query: string)
    requires c != [] && !Is(c, NoRows) && AsPg(c).None? && FindDbCode(ChainText(c)).None?
    ensures PublicPart(DecodeDbErr(c, query)) == PublicPart(c)
    ensures ChainText(DecodeDbErr(c, query)) == ChainText(c)
  {
    var r := DecodeDbErr(c, query);
    forall i | FirstAt(c, AppKind, i) ensures FirstAt(r, AppKind, i + 1) {
      assert r[i + 1] == c[i];
      forall j | 0 <= j < i + 1 ensures !OfKind(r[j], AppKind) {
        if j > 0 { assert r[j] == c[j - 1]; }
      }
    }
    forall i | FirstAt(r, AppKind, i) ensures FirstAt(c, AppKind, i - 1) {
      assert i > 0;
      forall j | 0 <= j < i - 1 ensures !OfKind(c[j], AppKind) {
        assert r[j + 1] == c[j];
      }
    }
  }
}
