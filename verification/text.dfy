/**
 * String helpers: `sliceStringAsChars` and `strOr` from `utils_text.go`, and the
 * few pieces of Go's `strings`/`strconv` the core leans on (`Contains`, `Join`,
 * `Split`, decimal rendering).
 *
 * A Go string is a byte sequence; converting it to `[]rune` decodes UTF-8.
 * Here a `string` is already a sequence of Unicode scalar values, so indexing
 * it is indexing by rune.
 */
module Text {

  predicate HasPrefix(s: string, p: string) {
    |p| <= |s| && s[..|p|] == p
  }

  predicate HasSuffix(s: string, p: string) {
    |p| <= |s| && s[|s| - |p|..] == p
  }

  lemma ConcatEnds(a: string, b: string)
    ensures HasPrefix(a + b, a) && HasSuffix(a + b, b)
  {
    assert (a + b)[..|a|] == a;
    assert (a + b)[|a + b| - |b|..] == b;
  }

  /** `strings.Contains`, computed by trying every start position from the left. */
  predicate Contains(s: string, sub: string)
    decreases |s|
  {
    HasPrefix(s, sub) || (|s| > 0 && Contains(s[1..], sub))
  }

  /** `sub` occurs in `s` starting at position `i`. */
  predicate OccursAt(s: string, sub: string, i: int) {
    0 <= i <= |s| - |sub| && s[i..i + |sub|] == sub
  }

  /** `Contains` holds exactly when `sub` occurs at some position of `s`. */
  lemma {:induction false} ContainsIffOccurs(s: string, sub: string)
    ensures Contains(s, sub) <==> exists i :: OccursAt(s, sub, i)
    decreases |s|
  {
    if HasPrefix(s, sub) {
      assert OccursAt(s, sub, 0);
    } else if |s| > 0 {
      ContainsIffOccurs(s[1..], sub);
      if Contains(s[1..], sub) {
        var i :| OccursAt(s[1..], sub, i);
        assert s[i + 1..i + 1 + |sub|] == s[1..][i..i + |sub|];
        assert OccursAt(s, sub, i + 1);
      }
      if exists i :: OccursAt(s, sub, i) {
        var i :| OccursAt(s, sub, i);
        assert i != 0;
        assert s[1..][i - 1..i - 1 + |sub|] == s[i..i + |sub|];
        assert OccursAt(s[1..], sub, i - 1);
      }
    } else {
      assert forall i :: !OccursAt(s, sub, i);
    }
  }

  /** The leftmost occurrence of `sub` at or after `from`, or -1 when there is none. */
  function IndexFrom(s: string, sub: string, from: nat): (r: int)
    requires from <= |s|
    ensures r == -1 || (from <= r && OccursAt(s, sub, r))
    ensures r == -1 ==> forall j :: from <= j ==> !OccursAt(s, sub, j)
    ensures r != -1 ==> forall j :: from <= j < r ==> !OccursAt(s, sub, j)
    decreases |s| - from
  {
    if OccursAt(s, sub, from) then from
    else if from == |s| then -1
    else IndexFrom(s, sub, from + 1)
  }

  /**
   * `strings.Index`: the leftmost position where `sub` occurs in `s`, or -1.
   * Go defines `strings.Contains` as `Index >= 0`; here the two are defined
   * independently and shown to agree.
   */
  function Index(s: string, sub: string): (r: int)
    ensures -1 <= r <= |s|
    ensures r >= 0 ==> OccursAt(s, sub, r) && forall j :: 0 <= j < r ==> !OccursAt(s, sub, j)
    ensures r == -1 <==> !Contains(s, sub)
  {
    ContainsIffOccurs(s, sub);
    IndexFrom(s, sub, 0)
  }

  /** Whatever stands between `a` and `c` is contained in `a + b + c`. */
  lemma ContainsInfix(a: string, b: string, c: string)
    ensures Contains(a + b + c, b)
  {
    var s := a + b + c;
    assert OccursAt(s, b, |a|);
    ContainsIffOccurs(s, b);
  }

  /** Text contained in a part is contained in the whole. */
  lemma ContainsInConcat(a: string, b: string, sub: string)
    ensures Contains(a, sub) ==> Contains(a + b, sub)
    ensures Contains(b, sub) ==> Contains(a + b, sub)
  {
    ContainsIffOccurs(a, sub);
    ContainsIffOccurs(b, sub);
    ContainsIffOccurs(a + b, sub);
    if Contains(a, sub) {
      var i :| OccursAt(a, sub, i);
      assert (a + b)[i..i + |sub|] == a[i..i + |sub|];
      assert OccursAt(a + b, sub, i);
    }
    if Contains(b, sub) {
      var i :| OccursAt(b, sub, i);
      assert (a + b)[|a| + i..|a| + i + |sub|] == b[i..i + |sub|];
      assert OccursAt(a + b, sub, |a| + i);
    }
  }

  /**
   * `sliceStringAsChars(str, start, end)`: the rune window `[start, end)` of
   * `s`, where the end bound is applied only when `0 <= end < |s|` and the
   * start bound only when it lies inside what is left after that.
   */
  function SliceRunes(s: string, start: int, end: int): (r: string)
    ensures 0 <= start < end < |s| ==> r == s[start..end]
    ensures 0 <= end < |s| && !(0 <= start < end) ==> r == s[..end]
    ensures !(0 <= end < |s|) && 0 <= start < |s| ==> r == s[start..]
    ensures !(0 <= end < |s|) && !(0 <= start < |s|) ==> r == s
    ensures |r| <= |s| && Contains(s, r)
  {
    var kept := if 0 <= end < |s| then s[..end] else s;
    var r := if 0 <= start < |kept| then kept[start..] else kept;
    var i := if 0 <= start < |kept| then start else 0;
    assert OccursAt(s, r, i);
    ContainsIffOccurs(s, r);
    r
  }

  /** `strOr`: the first non-empty argument, or "" when all are empty. */
  function StrOr(vals: seq<string>): (r: string)
    ensures r == "" <==> forall i :: 0 <= i < |vals| ==> vals[i] == ""
    ensures r != "" ==> exists i :: 0 <= i < |vals| && vals[i] == r && forall j :: 0 <= j < i ==> vals[j] == ""
  {
    if |vals| == 0 then ""
    else if vals[0] != "" then vals[0]
    else
      var r := StrOr(vals[1..]);
      assert r != "" ==> exists i :: 1 <= i < |vals| && vals[i] == r && forall j :: 0 <= j < i ==> vals[j] == "" by {
        if r != "" {
          var k :| 0 <= k < |vals[1..]| && vals[1..][k] == r && forall j :: 0 <= j < k ==> vals[1..][j] == "";
          assert vals[k + 1] == r;
          forall j | 0 <= j < k + 1
            ensures vals[j] == ""
          {
            if j > 0 {
              assert vals[j] == vals[1..][j - 1];
            }
          }
        }
      }
      r
  }

  function DigitChar(d: nat): char
    requires d < 10
  {
    ('0' as int + d) as char
  }

  /** Decimal rendering of a natural number, without leading zeros. */
  function NatToString(n: nat): (r: string)
    ensures |r| > 0
    ensures forall i :: 0 <= i < |r| ==> '0' <= r[i] <= '9'
    ensures n > 0 ==> r[0] != '0'
  {
    if n < 10 then [DigitChar(n)] else NatToString(n / 10) + [DigitChar(n % 10)]
  }

  /** `strconv.FormatInt(n, 10)`: a minus sign for negative values, then the digits. */
  function IntToString(n: int): (r: string)
    ensures |r| > 0
    ensures n < 0 <==> r[0] == '-'
  {
    if n < 0 then "-" + NatToString(-n) else NatToString(n)
  }

  /** `strings.Join`: the elements with one `sep` between neighbours, none at either end. */
  function Join(xs: seq<string>, sep: string): (r: string)
  {
    if |xs| == 0 then ""
    else if |xs| == 1 then xs[0]
    else xs[0] + sep + Join(xs[1..], sep)
  }

  /** `strings.Split` on a one-character separator: the pieces between separators, always at least one. */
  function Split(s: string, sep: char): (r: seq<string>)
    ensures |r| >= 1
    ensures forall i :: 0 <= i < |r| ==> sep !in r[i]
    decreases |s|
  {
    if |s| == 0 then [""]
    else
      var rest := Split(s[1..], sep);
      if s[0] == sep then [""] + rest
      else [[s[0]] + rest[0]] + rest[1..]
  }

  /** Splitting a piece that holds no separator, followed by a separator and more text. */
  lemma {:induction false} SplitPieceThen(x: string, sep: char, t: string)
    requires sep !in x
    ensures Split(x + [sep] + t, sep) == [x] + Split(t, sep)
    decreases |x|
  {
    if |x| == 0 {
      assert x + [sep] + t == [sep] + t;
      assert ([sep] + t)[1..] == t;
    } else {
      SplitPieceThen(x[1..], sep, t);
      assert (x + [sep] + t)[1..] == x[1..] + [sep] + t;
      assert [x[0]] + x[1..] == x;
    }
  }

  /** Splitting a piece that holds no separator gives that piece alone. */
  lemma {:induction false} SplitPiece(x: string, sep: char)
    requires sep !in x
    ensures Split(x, sep) == [x]
    decreases |x|
  {
    if |x| > 0 {
      SplitPiece(x[1..], sep);
      assert [x[0]] + x[1..] == x;
    }
  }

  /** `Split` undoes `Join` when no piece contains the separator. */
  lemma {:induction false} SplitJoin(xs: seq<string>, sep: char)
    requires |xs| >= 1
    requires forall i :: 0 <= i < |xs| ==> sep !in xs[i]
    ensures Split(Join(xs, [sep]), sep) == xs
    decreases |xs|
  {
    if |xs| == 1 {
      SplitPiece(xs[0], sep);
    } else {
      SplitJoin(xs[1..], sep);
      SplitPieceThen(xs[0], sep, Join(xs[1..], [sep]));
      assert [xs[0]] + xs[1..] == xs;
    }
  }
}
