/**
 * Header helpers of `utils_http.go`. An `http.Header` maps a canonical key to
 * its list of values; keys are taken to be canonical already, so `Add` and
 * `Del` act on exactly the key they are given.
 */
module Headers {

  type Header = map<string, seq<string>>

  /** `isHttpStatusOk`: a status in the success class, 200..299 (`code / 100 == 2`). */
  predicate IsHttpStatusOk(code: int)
    ensures IsHttpStatusOk(code) <==> code / 100 == 2
  {
    200 <= code <= 299
  }

  /**
   * What `patchHttpHeaderMut` leaves behind: every source key with its source
   * values, except that a source key with no values is removed; target keys
   * the source does not mention are kept as they were.
   */
  function Patched(target: Header, source: Header): (r: Header)
    ensures forall k :: k in source && source[k] != [] ==> k in r && r[k] == source[k]
    ensures forall k :: k in source && source[k] == [] ==> k !in r
    ensures forall k :: k !in source ==> (k in r <==> k in target) && (k in target ==> r[k] == target[k])
  {
    map k | k in target.Keys + source.Keys && !(k in source && source[k] == []) ::
      if k in source then source[k] else target[k]
  }

  /**
   * `patchHttpHeaderMut(target, source)`: for each source key, in whatever
   * order the map yields them, delete the key from the target and add the
   * source's values back one by one.
   */
  method PatchHeaderMut(target: Header, source: Header) returns (out: Header)
    ensures out == Patched(target, source)
  {
    out := target;
    var todo := source.Keys;
    while todo != {}
      invariant todo <= source.Keys
      invariant forall k :: k in source && k !in todo ==> (k in out <==> source[k] != []) && (k in out ==> out[k] == source[k])
      invariant forall k :: k !in source || k in todo ==> (k in out <==> k in target) && (k in target ==> out[k] == target[k])
      decreases todo
    {
      var key :| key in todo;
      var vals := source[key];
      out := map k | k in out && k != key :: out[k];
      ghost var cleared := out;
      var j := 0;
      while j < |vals|
        invariant 0 <= j <= |vals|
        invariant j == 0 ==> key !in out
        invariant j > 0 ==> key in out && out[key] == vals[..j]
        invariant forall k :: k != key ==> (k in out <==> k in cleared) && (k in out ==> out[k] == cleared[k])
      {
        out := out[key := (if key in out then out[key] else []) + [vals[j]]];
        j := j + 1;
      }
      assert vals[..|vals|] == vals;
      todo := todo - {key};
    }
  }

  /**
   * `patchHttpHeader(left, right)`: a new header patched first with `left`,
   * then with `right`.
   */
  function PatchHeader(left: Header, right: Header): (r: Header)
    ensures forall k :: k in right && right[k] != [] ==> k in r && r[k] == right[k]
    ensures forall k :: k !in right && k in left && left[k] != [] ==> k in r && r[k] == left[k]
    ensures forall k :: k in r <==> (k in right && right[k] != []) || (k !in right && k in left && left[k] != [])
  {
    Patched(Patched(map[], left), right)
  }

  /** `httpHead(key, val)`: a header holding just `key` with the one value `val`. */
  function HttpHead(key: string, val: string): (r: Header)
    ensures r.Keys == {key} && r[key] == [val]
  {
    map[key := [val]]
  }

  /** `jsonResHeader`, with its key in canonical form. */
  const JsonResHeader: Header := HttpHead("Content-Type", "application/json")
}
