/** The HTTP handlers of the companion server: `/` answers only for the root
    path, `/healthz` reports the health flag, and `/cert/<domain>` hands out
    the certificate and key of a domain to a caller whose signed token lists
    that domain.

    A handler is a pure function from the request and what its foreign
    calls return to the response: `verify` is token verification, `acme` is
    what reading and decoding the ACME state file gave, and `decode` is
    base64 decoding, whose errors the handler ignores. */
module Server {
  import opened Base
  import opened Types

  const StatusOK: int := 200
  const StatusNoContent: int := 204
  const StatusBadRequest: int := 400
  const StatusUnauthorized: int := 401
  const StatusNotFound: int := 404
  const StatusInternalServerError: int := 500
  const StatusServiceUnavailable: int := 503

  const PlainText: string := "text/plain; charset=utf-8"
  const JsonContent: string := "application/json"

  const CertPath: string := "/cert/"
  const Bearer: string := "Bearer "

  datatype Body = Text(text: string) | Json(payload: CertResponse) | NoBody

  datatype Response = Response(status: int, contentType: string, body: Body)

  /** What token verification gave: the token's payload, or why it failed. */
  datatype Verification = Verified(payload: Auth) | Rejected(reason: string)

  /** What reading and decoding the ACME state file gave. */
  datatype AcmeFile = Unreadable | Malformed | Loaded(certificates: seq<AcmeCertificate>)

  /** `http.Error`: a plain-text response holding the message and a newline. */
  function Error(message: string, status: int): Response {
    Response(status, PlainText, Text(message + "\n"))
  }

  /** The `/` handler. */
  function Index(path: string): (r: Response)
    ensures r.status == StatusNotFound <==> path != "/"
    ensures r.status == StatusOK <==> path == "/"
    ensures r.contentType == PlainText
  {
    if path != "/" then Error("Not Found", StatusNotFound)
    else Response(StatusOK, PlainText, Text("Hello, World!\n"))
  }

  /** The `/healthz` handler, given the pointer to the health flag it was
      built with. Reading through a nil pointer panics, and the server then
      drops the connection without an answer (`None`). */
  function Healthz(healthy: Option<int>): (r: Option<Response>)
    ensures r.None? <==> healthy.None?
    ensures r.Some? ==> (r.value.status == StatusNoContent <==> healthy.value == 1)
    ensures r.Some? ==> (r.value.status == StatusServiceUnavailable <==> healthy.value != 1)
    ensures r.Some? ==> r.value.body == NoBody
  {
    match healthy
    case None => None
    case Some(flag) =>
      if flag == 1 then Some(Response(StatusNoContent, "", NoBody))
      else Some(Response(StatusServiceUnavailable, "", NoBody))
  }

  /** The pointer `Serve` hands the handler: the route is registered before
      the flag is allocated, so the handler keeps the nil pointer. */
  const RegisteredHealthFlag: Option<int> := None

  /** As the server is wired, `/healthz` never answers with a status. */
  lemma RegisteredHealthzNeverAnswers(flag: int)
    ensures Healthz(RegisteredHealthFlag) == None
    ensures Healthz(Some(flag)).Some?
  {
  }

  /** `ifExists`: a linear scan for an equal element. */
  function IfExists(needle: string, haystack: seq<string>): (found: bool)
    ensures found <==> needle in haystack
    decreases |haystack|
  {
    if |haystack| == 0 then false
    else if haystack[0] == needle then true
    else IfExists(needle, haystack[1..])
  }

  /** The position of the first ACME entry whose main domain is `domain`. */
  function FirstEntry(entries: seq<AcmeCertificate>, domain: string): (r: Option<nat>)
    ensures r.Some? ==> r.value < |entries| && entries[r.value].domain.main == domain
    ensures r.Some? ==> forall j :: 0 <= j < r.value ==> entries[j].domain.main != domain
    ensures r.None? <==> forall j :: 0 <= j < |entries| ==> entries[j].domain.main != domain
    decreases |entries|
  {
    if |entries| == 0 then None
    else if entries[0].domain.main == domain then Some(0)
    else match FirstEntry(entries[1..], domain)
      case None => None
      case Some(i) => Some(i + 1)
  }

  /** The domain a request path asks for. */
  function DomainOf(path: string): string {
    TrimPrefix(path, CertPath)
  }

  /** The token an Authorization header carries. */
  function TokenOf(authorization: string): string {
    TrimPrefix(authorization, Bearer)
  }

  /** Every check a request must pass before the ACME file is read. */
  predicate Authorised(path: string, authorization: string, verify: string -> Verification) {
    && DomainOf(path) != ""
    && authorization != ""
    && HasPrefix(authorization, Bearer)
    && verify(TokenOf(authorization)).Verified?
    && DomainOf(path) in verify(TokenOf(authorization)).payload.domains
  }

  /** The `/cert/` handler. */
  function GetCert(path: string, authorization: string, verify: string -> Verification,
                   acme: AcmeFile, decode: string -> Bytes): (r: Response)
    // success exactly when every check passes and the file names the domain
    ensures r.status == StatusOK <==>
              Authorised(path, authorization, verify) && acme.Loaded?
              && FirstEntry(acme.certificates, DomainOf(path)).Some?
    // and then the answer is the first matching entry, as JSON
    ensures r.status == StatusOK ==>
              var e := acme.certificates[FirstEntry(acme.certificates, DomainOf(path)).value];
              r == Response(StatusOK, JsonContent, Json(CertResponse(decode(e.certificate), decode(e.key))))
    // a request that fails a check is refused without looking at the file
    ensures !Authorised(path, authorization, verify) ==>
              r.status in {StatusBadRequest, StatusUnauthorized}
    ensures Authorised(path, authorization, verify) ==> r.status !in {StatusBadRequest, StatusUnauthorized}
  {
    var domain := DomainOf(path);
    if domain == "" then Error("Expected cert", StatusBadRequest)
    else if authorization == "" then Error("Expected authorization", StatusBadRequest)
    else if !HasPrefix(authorization, Bearer) then Error("Authorization in the wrong form.", StatusBadRequest)
    else
      match verify(TokenOf(authorization))
      case Rejected(_) => Error("Authorization failed", StatusUnauthorized)
      case Verified(payload) =>
        if !IfExists(domain, payload.domains) then Error("Unauthorized domain", StatusUnauthorized)
        else
          match acme
          case Unreadable => Error("Unable to read ACME file", StatusInternalServerError)
          case Malformed => Error("Unable to parse ACME file", StatusInternalServerError)
          case Loaded(entries) =>
            match FirstEntry(entries, domain)
            case None => Error("Domain not found", StatusNotFound)
            case Some(i) =>
              Response(StatusOK, JsonContent,
                       Json(CertResponse(decode(entries[i].certificate), decode(entries[i].key))))
  }

  /** The checks run in a fixed order, each with its own answer, and a
      failed check decides the response whatever comes later. */
  lemma CheckOrder(path: string, authorization: string, verify: string -> Verification,
                   acme: AcmeFile, decode: string -> Bytes)
    ensures DomainOf(path) == "" ==>
              GetCert(path, authorization, verify, acme, decode) == Error("Expected cert", StatusBadRequest)
    ensures DomainOf(path) != "" && authorization == "" ==>
              GetCert(path, authorization, verify, acme, decode) == Error("Expected authorization", StatusBadRequest)
    ensures DomainOf(path) != "" && authorization != "" && !HasPrefix(authorization, Bearer) ==>
              GetCert(path, authorization, verify, acme, decode)
              == Error("Authorization in the wrong form.", StatusBadRequest)
    ensures DomainOf(path) != "" && HasPrefix(authorization, Bearer) && verify(TokenOf(authorization)).Rejected? ==>
              GetCert(path, authorization, verify, acme, decode) == Error("Authorization failed", StatusUnauthorized)
    ensures DomainOf(path) != "" && HasPrefix(authorization, Bearer) && verify(TokenOf(authorization)).Verified?
            && DomainOf(path) !in verify(TokenOf(authorization)).payload.domains ==>
              GetCert(path, authorization, verify, acme, decode) == Error("Unauthorized domain", StatusUnauthorized)
    ensures Authorised(path, authorization, verify) && acme.Loaded?
            && FirstEntry(acme.certificates, DomainOf(path)).None? ==>
              GetCert(path, authorization, verify, acme, decode) == Error("Domain not found", StatusNotFound)
  {
  }

  /** Verification sees exactly the header without its `Bearer ` prefix:
      two verifiers that agree on that token give the same response. */
  lemma VerifiesBearerToken(path: string, token: string, verify1: string -> Verification,
                            verify2: string -> Verification, acme: AcmeFile, decode: string -> Bytes)
    requires verify1(token) == verify2(token)
    ensures GetCert(path, Bearer + token, verify1, acme, decode) == GetCert(path, Bearer + token, verify2, acme, decode)
  {
    TrimPrefixOfConcat(Bearer, token);
  }

  /** When several entries name the domain, the earliest one is served. */
  lemma FirstMatchServed(path: string, authorization: string, verify: string -> Verification,
                         entries: seq<AcmeCertificate>, decode: string -> Bytes, i: nat)
    requires Authorised(path, authorization, verify)
    requires i < |entries| && entries[i].domain.main == DomainOf(path)
    requires forall j :: 0 <= j < i ==> entries[j].domain.main != DomainOf(path)
    ensures GetCert(path, authorization, verify, Loaded(entries), decode)
            == Response(StatusOK, JsonContent,
                        Json(CertResponse(decode(entries[i].certificate), decode(entries[i].key))))
  {
    var r := FirstEntry(entries, DomainOf(path));
    assert r.Some?;
  }
}
