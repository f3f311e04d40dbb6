/** The client side of the certificate request (`client.GetCert`): fill in
    missing arguments from the environment, build the base URL under the
    scheme rules, ask `<base>/cert/<domain>` with the token as a bearer
    credential, and turn a non-200 answer into an error carrying the body.

    The environment is a map; the HTTP round trip (`send`) and JSON
    decoding of the body (`decode`) are oracles. */
module Client {
  import opened Base
  import opened Types

  const Http: string := "http://"
  const Https: string := "https://"

  datatype ClientError =
    | UrlMissing
    | DomainMissing
    | JwtMissing
    | UrlInsecure
    | Transport(reason: string)   // building, sending or reading the request failed
    | Status(body: string)        // the server answered with a status other than 200
    | Undecodable(reason: string) // the body was not the expected JSON

  /** The text of each error, as the caller sees it. */
  function Message(e: ClientError): string {
    match e
    case UrlMissing => "URL must not be empty"
    case DomainMissing => "DOMAIN must not be empty"
    case JwtMissing => "JWT must not be empty"
    case UrlInsecure => "URL must not be http"
    case Transport(reason) => reason
    case Status(body) => body
    case Undecodable(reason) => reason
  }

  type Environment = map<string, string>

  /** `os.Getenv`: the empty string for an unset variable. */
  function Getenv(env: Environment, name: string): string {
    if name in env then env[name] else ""
  }

  /** An empty argument is replaced by the environment variable `name`. */
  function Fallback(arg: string, env: Environment, name: string): (v: string)
    ensures arg != "" ==> v == arg
    ensures arg == "" ==> v == Getenv(env, name)
  {
    if arg == "" then Getenv(env, name) else arg
  }

  /** Development mode is on when `DEV` is set to anything non-empty. */
  predicate DevMode(env: Environment) {
    Getenv(env, "DEV") != ""
  }

  /** The scheme rules: outside development mode a plain `http://` URL is
      refused and `https://` is added when missing; in development mode
      `http://` is added when missing. */
  function BaseUrl(url: string, dev: bool): (r: Result<string, ClientError>)
    ensures !dev ==> (r.Err? <==> HasPrefix(url, Http))
    ensures r.Err? ==> r.error == UrlInsecure
    ensures !dev && r.Ok? ==> HasPrefix(r.value, Https)
    ensures dev ==> r.Ok? && HasPrefix(r.value, Http)
    // the scheme is only ever prepended, and only when absent
    ensures r.Ok? ==> r.value == url || (r.value == (if dev then Http else Https) + url
                                         && !HasPrefix(url, if dev then Http else Https))
  {
    if !dev then
      if HasPrefix(url, Http) then Err(UrlInsecure)
      else if !HasPrefix(url, Https) then Ok(Https + url)
      else Ok(url)
    else if !HasPrefix(url, Http) then Ok(Http + url)
    else Ok(url)
  }

  /** Applying the scheme rules to their own result changes nothing. */
  lemma BaseUrlIdempotent(url: string, dev: bool)
    requires BaseUrl(url, dev).Ok?
    ensures BaseUrl(BaseUrl(url, dev).value, dev) == BaseUrl(url, dev)
  {
    var b := BaseUrl(url, dev).value;
    if b != url {
      TrimPrefixOfConcat(if dev then Http else Https, url);
      if !dev {
        // "https://..." differs from "http://" in its fifth character
        assert b[4] != Http[4];
      }
    }
  }

  /** The request `GetCert` sends. */
  datatype Request = Request(url: string, authorization: string)

  /** What the HTTP round trip gave. */
  datatype Exchange = Failed(reason: string) | Reply(status: int, body: string)

  /** The argument checks and the request they lead to. */
  function PrepareRequest(url: string, domain: string, jwt: string, env: Environment): (r: Result<Request, ClientError>)
    // the arguments are checked in the order url, domain, jwt, after the fallback
    ensures Fallback(url, env, "URL") == "" ==> r == Err(UrlMissing)
    ensures Fallback(url, env, "URL") != "" && Fallback(domain, env, "DOMAIN") == "" ==> r == Err(DomainMissing)
    ensures (Fallback(url, env, "URL") != "" && Fallback(domain, env, "DOMAIN") != ""
             && Fallback(jwt, env, "JWT") == "") ==> r == Err(JwtMissing)
    // with all three present, the only remaining failure is the scheme rule
    ensures (Fallback(url, env, "URL") != "" && Fallback(domain, env, "DOMAIN") != ""
             && Fallback(jwt, env, "JWT") != "") ==>
              (r.Err? <==> BaseUrl(Fallback(url, env, "URL"), DevMode(env)).Err?)
    // the request shape
    ensures r.Ok? ==>
              && Fallback(domain, env, "DOMAIN") != "" && Fallback(jwt, env, "JWT") != ""
              && BaseUrl(Fallback(url, env, "URL"), DevMode(env)).Ok?
              && r.value.url == BaseUrl(Fallback(url, env, "URL"), DevMode(env)).value
                                + "/cert/" + Fallback(domain, env, "DOMAIN")
              && r.value.authorization == "Bearer " + Fallback(jwt, env, "JWT")
  {
    var url := Fallback(url, env, "URL");
    if url == "" then Err(UrlMissing)
    else
      var domain := Fallback(domain, env, "DOMAIN");
      if domain == "" then Err(DomainMissing)
      else
        var jwt := Fallback(jwt, env, "JWT");
        if jwt == "" then Err(JwtMissing)
        else
          match BaseUrl(url, DevMode(env))
          case Err(e) => Err(e)
          case Ok(base) => Ok(Request(base + "/cert/" + domain, "Bearer " + jwt))
  }

  /** `client.GetCert`. */
  function GetCert(url: string, domain: string, jwt: string, env: Environment,
                   send: Request -> Exchange, decode: string -> Result<CertResponse, string>): (r: Result<CertResponse, ClientError>)
    // nothing is sent when the arguments are refused
    ensures PrepareRequest(url, domain, jwt, env).Err? ==> r == Err(PrepareRequest(url, domain, jwt, env).error)
    // any status other than 200 is an error whose text is the body
    ensures (PrepareRequest(url, domain, jwt, env).Ok?
             && send(PrepareRequest(url, domain, jwt, env).value).Reply?
             && send(PrepareRequest(url, domain, jwt, env).value).status != 200) ==>
              r.Err? && Message(r.error) == send(PrepareRequest(url, domain, jwt, env).value).body
    // a result is only ever the decoding of a 200 body
    ensures r.Ok? ==>
              && PrepareRequest(url, domain, jwt, env).Ok?
              && send(PrepareRequest(url, domain, jwt, env).value).Reply?
              && send(PrepareRequest(url, domain, jwt, env).value).status == 200
              && decode(send(PrepareRequest(url, domain, jwt, env).value).body) == Ok(r.value)
  {
    match PrepareRequest(url, domain, jwt, env)
    case Err(e) => Err(e)
    case Ok(req) =>
      match send(req)
      case Failed(reason) => Err(Transport(reason))
      case Reply(status, body) =>
        if status != 200 then Err(Status(body))
        else
          match decode(body)
          case Err(reason) => Err(Undecodable(reason))
          case Ok(response) => Ok(response)
  }
}
