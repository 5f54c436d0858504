/**
 * The `dbCodeRegexp` of `utils_db.go`:
 *
 *   "(db\.(?:constraint|error)(?:\.\w+)+)"\s*:?\s*(.*)
 *
 * Everything after the closing quote can match the empty string, so a match
 * exists exactly where a quoted DB-code token does, and `FindStringSubmatch`
 * reports the token of the leftmost one. The scanner below finds that token
 * without a regexp engine; `QuotedAt` is the reference it is proved against.
 */
module DbCodeScan {
  import opened Wrappers
  import opened Text

  /** `\w` in Go's regexp syntax: ASCII letters, digits and underscore. */
  predicate IsWordChar(ch: char) {
    ('a' <= ch <= 'z') || ('A' <= ch <= 'Z') || ('0' <= ch <= '9') || ch == '_'
  }

  /** The characters a DB-code token is made of. */
  predicate IsTokenChar(ch: char) {
    IsWordChar(ch) || ch == '.'
  }

  /** `(?:\.\w+)+`: one or more groups, each a dot followed by word characters. */
  predicate IsDottedSegments(s: string) {
    && |s| >= 2
    && s[0] == '.'
    && IsWordChar(s[|s| - 1])
    && (forall i :: 0 <= i < |s| ==> IsTokenChar(s[i]))
    && (forall i :: 0 <= i < |s| - 1 && s[i] == '.' ==> IsWordChar(s[i + 1]))
  }

  /** `db\.(?:constraint|error)(?:\.\w+)+`. */
  predicate IsDbCodeToken(t: string) {
    || (HasPrefix(t, "db.constraint") && IsDottedSegments(t[13..]))
    || (HasPrefix(t, "db.error") && IsDottedSegments(t[8..]))
  }

  /** The regexp matches with its opening quote at `p` and its closing quote at `q`. */
  predicate QuotedAt(s: string, p: int, q: int) {
    0 <= p < q < |s| && s[p] == '"' && s[q] == '"' && IsDbCodeToken(s[p + 1..q])
  }

  /** A token is made of word characters and dots only, so it holds no quote. */
  lemma TokenChars(t: string)
    requires IsDbCodeToken(t)
    ensures forall i :: 0 <= i < |t| ==> IsTokenChar(t[i])
  {
    var n := if HasPrefix(t, "db.constraint") && IsDottedSegments(t[13..]) then 13 else 8;
    assert IsDottedSegments(t[n..]);
    forall i | 0 <= i < |t| ensures IsTokenChar(t[i]) {
      if i < n {
        assert t[i] == t[..n][i];
      } else {
        assert t[i] == t[n..][i - n];
      }
    }
  }

  /** The end of the run of token characters that starts at `i`. */
  function RunEnd(s: string, i: nat): (j: nat)
    requires i <= |s|
    ensures i <= j <= |s|
    ensures forall k :: i <= k < j ==> IsTokenChar(s[k])
    ensures j < |s| ==> !IsTokenChar(s[j])
    decreases |s| - i
  {
    if i < |s| && IsTokenChar(s[i]) then RunEnd(s, i + 1) else i
  }

  /** The closing quote of the match that opens at `p`, if one does. */
  function MatchAt(s: string, p: nat): (r: Option<nat>)
    requires p < |s|
    ensures r.Some? ==> QuotedAt(s, p, r.value)
    ensures r.None? ==> forall q :: !QuotedAt(s, p, q)
  {
    if s[p] != '"' then None
    else
      var q := RunEnd(s, p + 1);
      assert forall q' :: QuotedAt(s, p, q') ==> q' == q by {
        forall q' | QuotedAt(s, p, q') ensures q' == q {
          TokenChars(s[p + 1..q']);
        }
      }
      if q < |s| && s[q] == '"' && IsDbCodeToken(s[p + 1..q]) then Some(q) else None
  }

  /** The leftmost match that opens at or after `from`, as its pair of quote positions. */
  function ScanFrom(s: string, from: nat): (r: Option<(nat, nat)>)
    requires from <= |s|
    ensures r.Some? ==> from <= r.value.0 && QuotedAt(s, r.value.0, r.value.1)
    ensures r.Some? ==> forall p, q :: from <= p < r.value.0 ==> !QuotedAt(s, p, q)
    ensures r.None? ==> forall p, q :: from <= p ==> !QuotedAt(s, p, q)
    decreases |s| - from
  {
    if from == |s| then None
    else match MatchAt(s, from)
      case Some(q) => Some((from, q))
      case None => ScanFrom(s, from + 1)
  }

  /**
   * `dbCodeRegexp.FindStringSubmatch(text)[1]`: the token inside the leftmost
   * quoted DB code, or nothing when the text holds none.
   */
  function FindDbCode(s: string): (r: Option<string>)
    ensures r.Some? ==> IsDbCodeToken(r.value)
    ensures r.Some? ==> exists p, q :: QuotedAt(s, p, q) && r.value == s[p + 1..q]
                                   && forall p', q' :: QuotedAt(s, p', q') ==> p <= p'
    ensures r.None? <==> forall p, q :: !QuotedAt(s, p, q)
  {
    match ScanFrom(s, 0)
    case None => None
    case Some(m) =>
      assert QuotedAt(s, m.0, m.1);
      Some(s[m.0 + 1..m.1])
  }

  /** A text consisting of one quoted token yields exactly that token. */
  lemma FindQuotedToken(t: string)
    requires IsDbCodeToken(t)
    ensures FindDbCode("\"" + t + "\"") == Some(t)
  {
    var s := "\"" + t + "\"";
    assert s[1..|t| + 1] == t;
    assert QuotedAt(s, 0, |t| + 1);
    TokenChars(t);
    forall p, q | QuotedAt(s, p, q) ensures p == 0 {
      if p > 0 {
        assert s[p] == t[p - 1];
      }
    }
  }
}
