/**
 * SQL text handling (`utils_sql.go`, and `formatSql`, `dbQuery`, `dbExec`,
 * `dbExecSingle` of `utils_db.go`).
 *
 * Query text is represented by the token stream the SQL tokenizer yields
 * for it; the tokenizer itself is a library and is not modelled. The driver
 * is a function from the text and arguments it receives to what it reports.
 */
module Sql {
  import opened ErrorModel
  import opened ErrorUtils
  import opened DbErrors

  /** A token of SQL text, carrying the characters it covers. */
  datatype Token =
    | CommentLine(text: string)
    | CommentBlock(text: string)
    | Whitespace(text: string)
    | Other(text: string)

  /** The text a token stream came from. */
  function Render(tokens: seq<Token>): string {
    if tokens == [] then "" else tokens[0].text + Render(tokens[1..])
  }

  /**
   * The single-line form of a token stream: comments dropped, every run of
   * whitespace one space, everything else verbatim and in order.
   */
  function SingleLine(tokens: seq<Token>): string {
    if tokens == [] then ""
    else
      match tokens[0]
      case CommentLine(_) => SingleLine(tokens[1..])
      case CommentBlock(_) => SingleLine(tokens[1..])
      case Whitespace(_) => " " + SingleLine(tokens[1..])
      case Other(t) => t + SingleLine(tokens[1..])
  }

  /** Flattening works token by token: the form of a concatenation is the concatenation of the forms. */
  lemma {:induction false} SingleLineAppend(a: seq<Token>, b: seq<Token>)
    ensures SingleLine(a + b) == SingleLine(a) + SingleLine(b)
    decreases |a|
  {
    if a == [] {
      assert a + b == b;
    } else {
      SingleLineAppend(a[1..], b);
      assert (a + b)[0] == a[0];
      assert (a + b)[1..] == a[1..] + b;
    }
  }

  /**
   * `sqlToSingleLine`: pull tokens one at a time; skip comments, append one
   * space for whitespace and the token's own text for anything else.
   */
  method SqlToSingleLine(tokens: seq<Token>) returns (buf: string)
    ensures buf == SingleLine(tokens)
    ensures tokens == [] ==> buf == ""
  {
    buf := "";
    var i := 0;
    while i < |tokens|
      invariant 0 <= i <= |tokens|
      invariant buf == SingleLine(tokens[..i])
    {
      var node := tokens[i];
      SingleLineAppend(tokens[..i], [node]);
      assert tokens[..i + 1] == tokens[..i] + [node];
      match node {
        case CommentLine(_) =>
        case CommentBlock(_) =>
        case Whitespace(_) =>
          buf := buf + " ";
        case Other(t) =>
          buf := buf + t;
      }
      i := i + 1;
    }
    assert tokens[..i] == tokens;
  }

  /** A comment anywhere in the stream leaves no trace in the single-line form. */
  lemma CommentVanishes(a: seq<Token>, c: Token, b: seq<Token>)
    requires c.CommentLine? || c.CommentBlock?
    ensures SingleLine(a + [c] + b) == SingleLine(a + b)
  {
    SingleLineAppend(a + [c], b);
    SingleLineAppend(a, [c]);
    SingleLineAppend(a, b);
  }

  /** A whitespace token becomes exactly one space, however long it was. */
  lemma WhitespaceIsOneSpace(a: seq<Token>, w: string, b: seq<Token>)
    ensures SingleLine(a + [Whitespace(w)] + b) == SingleLine(a) + " " + SingleLine(b)
  {
    SingleLineAppend(a + [Whitespace(w)], b);
    SingleLineAppend(a, [Whitespace(w)]);
  }

  predicate NoNewline(s: string) {
    forall i :: 0 <= i < |s| ==> s[i] != '\n'
  }

  /** The form is one line: when no ordinary token holds a newline, neither does the result. */
  lemma {:induction false} SingleLineHasNoNewline(tokens: seq<Token>)
    requires forall i :: 0 <= i < |tokens| && tokens[i].Other? ==> NoNewline(tokens[i].text)
    ensures NoNewline(SingleLine(tokens))
    decreases |tokens|
  {
    if tokens != [] {
      SingleLineHasNoNewline(tokens[1..]);
      assert forall i :: 0 <= i < |tokens[1..]| ==> tokens[1..][i] == tokens[i + 1];
    }
  }

  /** Text already in single-line form is a fixed point: no comments and single-space whitespace stay as written. */
  lemma {:induction false} SingleLineFixedPoint(tokens: seq<Token>)
    requires forall i :: 0 <= i < |tokens| ==> !tokens[i].CommentLine? && !tokens[i].CommentBlock?
    requires forall i :: 0 <= i < |tokens| && tokens[i].Whitespace? ==> tokens[i].text == " "
    ensures SingleLine(tokens) == Render(tokens)
    decreases |tokens|
  {
    if tokens != [] {
      assert forall i :: 0 <= i < |tokens[1..]| ==> tokens[1..][i] == tokens[i + 1];
      SingleLineFixedPoint(tokens[1..]);
    }
  }

  /** `formatSql`: the text as written under `PRETTY_SQL`, its single-line form otherwise. */
  function FormatSql(pretty: bool, tokens: seq<Token>): (r: string)
    ensures pretty ==> r == Render(tokens)
    ensures !pretty ==> r == SingleLine(tokens)
  {
    if pretty then Render(tokens) else SingleLine(tokens)
  }

  /** A query: its text as tokens and its ordinal arguments, rendered as the driver receives them. */
  datatype SqlQuery = SqlQuery(text: seq<Token>, args: seq<string>)

  /** What the driver reports for a statement: a failure, or the number of rows it produced or affected. */
  datatype Outcome = Failed(err: Failure) | Rows(count: nat)

  type Driver = (string, seq<string>) -> Outcome

  /** The error the driver reported, nil when it reported rows. */
  function DriverErr(o: Outcome): (r: Chain)
    ensures r == [] <==> o.Rows?
  {
    match o
    case Failed(e) => e
    case Rows(_) => []
  }

  /**
   * `SqlQuery.Exec` (through `dbExec`): the formatted text and the arguments
   * go to the driver unchanged; its error is classified against the text that
   * was actually sent.
   */
  function Exec(pretty: bool, driver: Driver, q: SqlQuery): (r: Chain)
    ensures r == [] <==> driver(FormatSql(pretty, q.text), q.args).Rows?
    ensures driver(FormatSql(pretty, q.text), q.args).Failed? ==>
              exists k :: 0 <= k <= |r| && r[k..] == driver(FormatSql(pretty, q.text), q.args).err
  {
    var text := FormatSql(pretty, q.text);
    var o := driver(text, q.args);
    if o.Failed? then DecodeKeepsChain(o.err, text); DecodeDbErr(o.err, text)
    else []
  }

  /** `SqlQuery.ExecTx`: the same as `Exec`. */
  function ExecTx(pretty: bool, driver: Driver, q: SqlQuery): Chain {
    Exec(pretty, driver, q)
  }

  /**
   * `SqlQuery.Query` (through `dbQuery`): like `Exec`, and when the driver
   * succeeds, scanning its rows into the output may fail in its own way.
   */
  function Query(pretty: bool, driver: Driver, q: SqlQuery, scan: nat -> Chain): (r: Chain)
    ensures r == [] <==> driver(FormatSql(pretty, q.text), q.args).Rows? && scan(driver(FormatSql(pretty, q.text), q.args).count) == []
  {
    var text := FormatSql(pretty, q.text);
    var o := driver(text, q.args);
    DecodeDbErr(if o.Failed? then o.err else scan(o.count), text)
  }

  /** The clause `dbExecSingle` appends to its statement. */
  const Returning: seq<Token> := [Whitespace(" "), Other("returning"), Whitespace(" "), Other("true")]

  /** Scanning into one boolean: `sql.ErrNoRows` for no row, nil for one, the library's error for several. */
  function ScanOne(multiErr: Failure): nat -> Chain {
    n => if n == 0 then [Sent(NoRows)] else if n == 1 then [] else multiErr
  }

  /** `SqlQuery.ExecSingle` (through `dbExecSingle`): the statement with `returning true`, scanned as one row. */
  function ExecSingle(pretty: bool, driver: Driver, q: SqlQuery, multiErr: Failure): Chain {
    Query(pretty, driver, SqlQuery(q.text + Returning, q.args), ScanOne(multiErr))
  }

  /** `SqlQuery.ExecTxSingle`: the same as `ExecSingle`. */
  function ExecTxSingle(pretty: bool, driver: Driver, q: SqlQuery, multiErr: Failure): Chain {
    ExecSingle(pretty, driver, q, multiErr)
  }

  /**
   * A single-row statement succeeds exactly when the driver reports one row;
   * no row at all is a public 404, so a missing record surfaces as "not found".
   */
  lemma ExecSingleOutcomes(pretty: bool, driver: Driver, q: SqlQuery, multiErr: Failure)
    ensures var o := driver(FormatSql(pretty, q.text + Returning), q.args);
      && (ExecSingle(pretty, driver, q, multiErr) == [] <==> o == Rows(1))
      && (o == Rows(0) ==>
            IsErrNotFound(ExecSingle(pretty, driver, q, multiErr)) && PublicWithStatus(ExecSingle(pretty, driver, q, multiErr), 404))
      && (o.Failed? ==> ExecSingle(pretty, driver, q, multiErr) == DecodeDbErr(o.err, FormatSql(pretty, q.text + Returning)))
  {
    var text := FormatSql(pretty, q.text + Returning);
    var o := driver(text, q.args);
    if o == Rows(0) {
      var c := [Sent(NoRows)];
      assert Is(c, NoRows);
      DecodeNoRowsFirst(c, text);
    }
  }

  /** The transaction variants add nothing: on a transaction they behave exactly as the plain ones. */
  lemma TxVariantsDelegate(pretty: bool, driver: Driver, q: SqlQuery, multiErr: Failure)
    ensures ExecTx(pretty, driver, q) == Exec(pretty, driver, q)
    ensures ExecTxSingle(pretty, driver, q, multiErr) == ExecSingle(pretty, driver, q, multiErr)
  {
  }
}
