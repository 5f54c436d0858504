/**
 * Small helpers of `utils_misc.go`: tolerating "not found", optional strings,
 * the reflect-kind check and `last`.
 */
module Misc {
  import opened Wrappers
  import opened Ints
  import opened ErrorModel
  import opened ErrorUtils

  /** `allowNotFound`: a not-found error becomes nil; anything else, nil included, is returned as it is. */
  function AllowNotFound(c: Chain): (r: Chain)
    ensures IsErrNotFound(c) ==> r == []
    ensures !IsErrNotFound(c) ==> r == c
  {
    if IsErrNotFound(c) then [] else c
  }

  /** What `tryFound` does: report whether the row was found, or abort by panicking with the error. */
  datatype Found = Found(found: bool) | Aborted(err: Failure)

  /** `tryFound`: false for a not-found error, true for nil, and a panic with any other error. */
  function TryFound(c: Chain): (r: Found)
    ensures r == Found(false) <==> IsErrNotFound(c)
    ensures r == Found(true) <==> c == []
    ensures r.Aborted? ==> r.err == c
  {
    if IsErrNotFound(c) then Found(false)
    else if c != [] then Aborted(c)
    else Found(true)
  }

  /**
   * The two helpers agree: `tryFound` aborts exactly on the errors that
   * `allowNotFound` lets through, and reports "found" exactly when
   * `allowNotFound` is given nil.
   */
  lemma TryFoundAgreesWithAllowNotFound(c: Chain)
    ensures TryFound(c).Aborted? <==> AllowNotFound(c) != []
    ensures TryFound(c).Aborted? ==> TryFound(c).err == AllowNotFound(c)
    ensures TryFound(c) == Found(true) ==> AllowNotFound(c) == []
  {
    assert !IsErrNotFound([]);
  }

  /** `allowNotFound` is idempotent: what it lets through is never a not-found error. */
  lemma AllowNotFoundIdempotent(c: Chain)
    ensures !IsErrNotFound(AllowNotFound(c))
    ensures AllowNotFound(AllowNotFound(c)) == AllowNotFound(c)
  {
    assert !IsErrNotFound([]);
  }

  /** `maybeString`: no string for "", otherwise the string itself. */
  function MaybeString(val: string): (r: Option<string>)
    ensures r.None? <==> val == ""
    ensures r.Some? ==> r.value == val
  {
    if val == "" then None else Some(val)
  }

  /** `reflect.Kind`, with the names Go prints for each kind. */
  datatype RKind =
    | Invalid | Bool | Int | Int8 | Int16 | Int32 | Int64 | Uint | Uint8 | Uint16 | Uint32 | Uint64 | Uintptr
    | Float32 | Float64 | Complex64 | Complex128 | Array | Chan | Func | Interface | Map | Pointer | Slice
    | String | Struct | UnsafePointer

  function KindName(k: RKind): string {
    match k
    case Invalid => "invalid"
    case Bool => "bool"
    case Int => "int"
    case Int8 => "int8"
    case Int16 => "int16"
    case Int32 => "int32"
    case Int64 => "int64"
    case Uint => "uint"
    case Uint8 => "uint8"
    case Uint16 => "uint16"
    case Uint32 => "uint32"
    case Uint64 => "uint64"
    case Uintptr => "uintptr"
    case Float32 => "float32"
    case Float64 => "float64"
    case Complex64 => "complex64"
    case Complex128 => "complex128"
    case Array => "array"
    case Chan => "chan"
    case Func => "func"
    case Interface => "interface"
    case Map => "map"
    case Pointer => "ptr"
    case Slice => "slice"
    case String => "string"
    case Struct => "struct"
    case UnsafePointer => "unsafe.Pointer"
  }

  /** `validateRkind(actual, expected)`: nil when the kinds agree, otherwise an error naming both, expected first. */
  function ValidateRkind(actual: RKind, expected: RKind): (r: Chain)
    ensures r == [] <==> actual == expected
    ensures r != [] ==> r == [Msg("expected reflect kind \"" + KindName(expected) + "\", got \"" + KindName(actual) + "\"")]
  {
    if expected != actual then
      [Msg("expected reflect kind \"" + KindName(expected) + "\", got \"" + KindName(actual) + "\"")]
    else []
  }

  /** `last(index)`: the index before, with Go's 64-bit `int` wrapping below the minimum. */
  function Last(index: i64): (r: i64)
    ensures index > MinInt64 ==> r == index - 1
    ensures index == MinInt64 ==> r == MaxInt64
  {
    Wrap64(index - 1)
  }

  /** `last(n)` of a slice length `n > 0` is the index of the final element. */
  lemma LastIndexesFinal<T>(xs: seq<T>)
    requires 0 < |xs| <= MaxInt64
    ensures 0 <= Last(|xs|) < |xs| && xs[Last(|xs|)] == xs[|xs| - 1]
  {
  }
}
