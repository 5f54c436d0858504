/**
 * Request decoding (`types_http.go`, and `reqDownloadDecode` with its
 * validating variant from `utils_server.go`). The decoding library is left
 * abstract: each of its calls is represented by the error it returned. Every
 * decoding or validation failure is reported to the client as a 400.
 */
module Reqdec {
  import opened Wrappers
  import opened ErrorModel
  import opened ErrorUtils
  import opened Headers

  /** How a library decoding failure is reported: with a stack, public, status 400. */
  function BadInput(libErr: Chain): (r: Chain)
    ensures r == [] <==> libErr == []
    ensures libErr != [] ==> PublicWithStatus(r, 400) && r[1..] == WithStack(libErr)
    ensures libErr != [] ==> PublicPart(r) == r
  {
    var r := ErrPubBadRequest(WithStack(libErr));
    if libErr != [] then PublicPartIsSelf(r); r else r
  }

  /** `DownloadReqdec`: the error of downloading the request body. */
  function DownloadReqdec(downloadErr: Chain): (r: Chain)
    ensures r == [] <==> downloadErr == []
    ensures downloadErr != [] ==> PublicWithStatus(r, 400) && r[1..] == WithStack(downloadErr)
  {
    BadInput(downloadErr)
  }

  /** `Reqdec.DecodeStruct`: the error of decoding into a struct. */
  function DecodeStruct(decodeErr: Chain): (r: Chain)
    ensures r == [] <==> decodeErr == []
    ensures decodeErr != [] ==> PublicWithStatus(r, 400) && r[1..] == WithStack(decodeErr)
  {
    BadInput(decodeErr)
  }

  /** `Reqdec.DecodeAt`: the error of decoding the value at `key`. */
  function DecodeAt(key: string, decodeErr: Chain): (r: Chain)
    ensures r == [] <==> decodeErr == []
    ensures decodeErr != [] ==> PublicWithStatus(r, 400) && r[1..] == WithStack(decodeErr)
  {
    BadInput(decodeErr)
  }

  /** The error a decode-and-validate step returns, and whether `Validate` was called. */
  datatype Checked = Checked(err: Chain, validated: bool)

  /** `Reqdec.DecodeValidateStruct`: decode, and only if that succeeded, validate. */
  function DecodeValidateStruct(decodeErr: Chain, validateErr: Chain): (r: Checked)
    ensures r.validated <==> decodeErr == []
    ensures r.err == [] <==> decodeErr == [] && validateErr == []
    ensures decodeErr != [] ==> r.err == DecodeStruct(decodeErr)
    ensures decodeErr == [] && validateErr != [] ==> PublicWithStatus(r.err, 400) && r.err[1..] == Err(validateErr).cause
  {
    var e := DecodeStruct(decodeErr);
    if e != [] then Checked(e, false)
    else Checked(ErrPubBadRequest(validateErr), true)
  }

  /** `reqDownloadDecode`: download, and only if that succeeded, decode. */
  function ReqDownloadDecode(downloadErr: Chain, decodeErr: Chain): (r: Chain)
    ensures r == [] <==> downloadErr == [] && decodeErr == []
    ensures downloadErr != [] ==> r == DownloadReqdec(downloadErr)
    ensures r != [] ==> PublicWithStatus(r, 400)
  {
    var e := DownloadReqdec(downloadErr);
    if e != [] then e else DecodeStruct(decodeErr)
  }

  /** `reqDownloadDecodeValidate`: download and decode, then validate only if both succeeded. */
  function ReqDownloadDecodeValidate(downloadErr: Chain, decodeErr: Chain, validateErr: Chain): (r: Checked)
    ensures r.validated <==> downloadErr == [] && decodeErr == []
    ensures r.err == [] <==> downloadErr == [] && decodeErr == [] && validateErr == []
    ensures r.err != [] ==> PublicWithStatus(r.err, 400)
  {
    var e := ReqDownloadDecode(downloadErr, decodeErr);
    if e != [] then Checked(e, false)
    else Checked(ErrPubBadRequest(validateErr), true)
  }

  /** Parameters of an outgoing HTTP request with the body already encoded. */
  datatype HttpReqParams = HttpReqParams(verb: string, url: string, header: Header, body: seq<bv8>)

  /** Parameters of an outgoing JSON request; the body value itself is left abstract. */
  datatype JsonReqParams = JsonReqParams(verb: string, url: string, header: Header)

  /** What JSON encoding of the body gave: the bytes, or an error. */
  datatype Marshaled = Encoded(bytes: seq<bv8>) | MarshalFailed(err: Failure)

  /**
   * `JsonReqParams.HttpReqParams`: empty parameters and the error when the body
   * does not encode; otherwise verb (HTTP method) and URL copied, the encoded body, and a
   * header that is the JSON content type overridden by the caller's header.
   */
  function ToHttpReqParams(p: JsonReqParams, body: Marshaled): (r: (HttpReqParams, Chain))
    ensures body.MarshalFailed? ==> r.0 == HttpReqParams("", "", map[], []) && r.1 == body.err
    ensures body.Encoded? ==> r.1 == [] && r.0.verb == p.verb && r.0.url == p.url && r.0.body == body.bytes
    ensures body.Encoded? ==> r.0.header == PatchHeader(JsonResHeader, p.header)
  {
    match body
    case MarshalFailed(e) => (HttpReqParams("", "", map[], []), e)
    case Encoded(bytes) => (HttpReqParams(p.verb, p.url, PatchHeader(JsonResHeader, p.header), bytes), [])
  }

  /**
   * The content type is JSON unless the caller's header names `Content-Type`:
   * a non-empty list replaces it, and an empty list removes the header.
   */
  lemma JsonContentTypeDefault(p: JsonReqParams, bytes: seq<bv8>)
    ensures "Content-Type" in p.header && p.header["Content-Type"] == [] ==>
              "Content-Type" !in ToHttpReqParams(p, Encoded(bytes)).0.header
    ensures "Content-Type" !in p.header ==> ToHttpReqParams(p, Encoded(bytes)).0.header["Content-Type"] == ["application/json"]
    ensures "Content-Type" in p.header && p.header["Content-Type"] != [] ==>
              ToHttpReqParams(p, Encoded(bytes)).0.header["Content-Type"] == p.header["Content-Type"]
  {
  }
}
