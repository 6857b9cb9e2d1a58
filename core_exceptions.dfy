/** `Http400` and `custom_exception_handler`, which turns an exception raised by a view
    into a response (or into nothing, letting the framework answer with a server error). */
module Exceptions {

  import opened Wrappers

  /** A JSON value, as a response's data. */
  datatype Json = Null | Bool(b: bool) | Str(s: string) | Int(i: int) | List(items: seq<Json>) | Dict(entries: map<string, Json>)

  /** The REST framework's exception classes the project raises or meets. */
  datatype ApiKind = Http400 | NotFound | PermissionDenied | NotAuthenticated | OtherApi(name: string)

  /** An exception reaching the handler: Django's `Http404` and `PermissionDenied`, a REST
      framework `APIException` (with its `status_code`, `detail` and the optional
      `auth_header` and `wait` attributes), or any other exception. */
  datatype Exc =
    | Http404
    | DjangoPermissionDenied
    | Api(kind: ApiKind, statusCode: int, detail: Json, authHeader: Option<string>, wait: Option<int>)
    | NonApi(name: string, message: string)

  datatype Response = Response(data: Json, status: int, headers: map<string, string>)

  const Http400DefaultDetail := "Ошибка операции."

  /** `Http400(detail)`: status 400; without a detail, "Ошибка операции.". */
  function Http400Exc(detail: Option<Json>): (e: Exc)
    ensures e.Api? && e.kind == Http400 && e.statusCode == 400
    ensures e.detail == if detail.Some? then detail.value else Str(Http400DefaultDetail)
    ensures e.authHeader == None && e.wait == None
  {
    Api(Http400, 400, detail.GetOr(Str(Http400DefaultDetail)), None, None)
  }

  /** The REST framework's `NotFound()` and `PermissionDenied()` with their default details. */
  const NotFoundExc := Api(NotFound, 404, Str("Not found."), None, None)
  const PermissionDeniedExc := Api(PermissionDenied, 403, Str("You do not have permission to perform this action."), None, None)

  /** The exception after the handler's first step: Django's `Http404` and
      `PermissionDenied` become their REST framework counterparts, others stay. */
  function Converted(exc: Exc): (e: Exc)
    ensures exc.Http404? ==> e == NotFoundExc
    ensures exc.DjangoPermissionDenied? ==> e == PermissionDeniedExc
    ensures !exc.Http404? && !exc.DjangoPermissionDenied? ==> e == exc
  {
    match exc
    case Http404 => NotFoundExc
    case DjangoPermissionDenied => PermissionDeniedExc
    case _ => exc
  }

  /** A detail that is not a list or a dict gets wrapped in a one-key dict. */
  predicate IsScalar(detail: Json) {
    !detail.List? && !detail.Dict?
  }

  /** `getattr(exc, "auth_header", None)` is truthy: present and not empty. */
  predicate AuthHeaderSet(h: Option<string>) {
    h.Some? && h.value != ""
  }

  /** `getattr(exc, "wait", None)` is truthy: present and not zero. */
  predicate WaitSet(w: Option<int>) {
    w.Some? && w.value != 0
  }

  function Digit(d: nat): char
    requires d < 10
  {
    "0123456789"[d]
  }

  /** The decimal digits of `n`, as `"%d" % n` writes them for `n >= 0`. */
  function NatToDecimal(n: nat): (s: string)
    ensures |s| >= 1
    ensures forall k :: 0 <= k < |s| ==> '0' <= s[k] <= '9'
    decreases n
  {
    if n < 10 then [Digit(n)] else NatToDecimal(n / 10) + [Digit(n % 10)]
  }

  /** `"%d" % n`. */
  function FormatD(n: int): (s: string)
    ensures |s| >= 1
    ensures n < 0 <==> s[0] == '-'
  {
    if n < 0 then "-" + NatToDecimal(-n) else NatToDecimal(n)
  }

  /** Reading decimal digits back, the inverse of `NatToDecimal`. */
  function DecimalValue(s: string): nat
    requires forall k :: 0 <= k < |s| ==> '0' <= s[k] <= '9'
  {
    if s == [] then 0 else 10 * DecimalValue(s[..|s| - 1]) + (s[|s| - 1] as int - '0' as int)
  }

  lemma {:induction false} DecimalRoundTrip(n: nat)
    ensures DecimalValue(NatToDecimal(n)) == n
    decreases n
  {
    var s := NatToDecimal(n);
    if n < 10 {
      assert s[..|s| - 1] == [];
    } else {
      DecimalRoundTrip(n / 10);
      assert s[..|s| - 1] == NatToDecimal(n / 10);
    }
  }

  /** `custom_exception_handler(exc, context)`. */
  method CustomExceptionHandler(exc: Exc) returns (response: Option<Response>)
    ensures response.None? <==> exc.NonApi?
    ensures response.Some? ==> response.value.status == Converted(exc).statusCode
    ensures response.Some? ==>
      var e, h := Converted(exc), response.value.headers;
      && h.Keys <= {"WWW-Authenticate", "Retry-After"}
      && ("WWW-Authenticate" in h <==> AuthHeaderSet(e.authHeader))
      && ("WWW-Authenticate" in h ==> h["WWW-Authenticate"] == e.authHeader.value)
      && ("Retry-After" in h <==> WaitSet(e.wait))
      && ("Retry-After" in h ==> h["Retry-After"] == FormatD(e.wait.value))
    ensures response.Some? ==>
      var e := Converted(exc);
      response.value.data ==
        if !IsScalar(e.detail) then e.detail
        else if e.kind == Http400 then Dict(map["errors" := e.detail])
        else Dict(map["detail" := e.detail])
  {
    var e := exc;
    if e.Http404? {
      e := NotFoundExc;
    } else if e.DjangoPermissionDenied? {
      e := PermissionDeniedExc;
    } else if e.Api? && e.kind == Http400 {
      // An `Http400` is always an `APIException`, so the inner check of the source holds.
      var headers: map<string, string> := map[];
      if AuthHeaderSet(e.authHeader) {
        headers := headers["WWW-Authenticate" := e.authHeader.value];
      }
      if WaitSet(e.wait) {
        headers := headers["Retry-After" := FormatD(e.wait.value)];
      }
      var data := if IsScalar(e.detail) then Dict(map["errors" := e.detail]) else e.detail;
      return Some(Response(data, e.statusCode, headers));
    }
    if e.Api? {
      var headers: map<string, string> := map[];
      if AuthHeaderSet(e.authHeader) {
        headers := headers["WWW-Authenticate" := e.authHeader.value];
      }
      if WaitSet(e.wait) {
        headers := headers["Retry-After" := FormatD(e.wait.value)];
      }
      var data := if IsScalar(e.detail) then Dict(map["detail" := e.detail]) else e.detail;
      return Some(Response(data, e.statusCode, headers));
    }
    return None;
  }
}
