/** The certificate acquisition retry policy of the `exec` command
    (`getValidCert`): fetch a certificate from the companion server on the
    first attempt only, read the certificate file back, and retry on an
    unreadable or expired certificate until the attempt ceiling.

    The two foreign steps are oracles: `fetch` is what the fetch-and-write
    step (`getcertFunc`) returned, and `parse(k)` is what reading and
    parsing the certificate file gave on attempt `k`. `clock(k)` is the wall
    clock, in nanoseconds, while attempt `k` checks the validity window. */
module Retry {
  import opened Base

  /** The parts of a parsed X.509 certificate the supervisor looks at:
      the validity window, in nanoseconds, and the signature bytes. */
  datatype Certificate = Certificate(notBefore: int, notAfter: int, signature: Bytes)

  datatype AcqError =
    | FetchFailed(reason: string)  // whatever the fetch step returned, passed through
    | TooManyTries                 // "Too many tries"
    | TooNew                       // "Cert too new"

  /** What reading and parsing the certificate file gave. */
  datatype ParseResult = Parsed(cert: Certificate) | Unparsable(reason: string)

  /** The last attempt number that still reads the file. */
  const MaxTries: nat := 2

  /** One call of the policy as seen from outside: what it returned, how
      often it fetched and parsed, and how many invocations of the
      recursive policy it took. */
  datatype Acquisition = Acquisition(result: Result<Certificate, AcqError>, fetches: nat, parses: nat, calls: nat)

  /** `now.Before(c.NotBefore)`. */
  predicate TooNewAt(c: Certificate, now: int) {
    now < c.notBefore
  }

  /** `now.After(c.NotAfter)`. */
  predicate ExpiredAt(c: Certificate, now: int) {
    now > c.notAfter
  }

  /** Both comparisons are strict, so the window is closed at both ends. */
  predicate ValidAt(c: Certificate, now: int) {
    c.notBefore <= now <= c.notAfter
  }

  /** Attempt `k` ends the escalation: the file parsed and the certificate
      was either too new or not expired. "Too new" is checked first, so it
      wins even for a window whose end precedes its start. */
  predicate Settles(parse: nat -> ParseResult, clock: nat -> int, k: nat) {
    parse(k).Parsed? && (TooNewAt(parse(k).cert, clock(k)) || !ExpiredAt(parse(k).cert, clock(k)))
  }

  /** `k` is the first attempt from `from` on, within the ceiling, that settles. */
  predicate FirstSettledAt(parse: nat -> ParseResult, clock: nat -> int, from: nat, k: nat) {
    && from <= k <= MaxTries
    && Settles(parse, clock, k)
    && forall j :: from <= j < k ==> !Settles(parse, clock, j)
  }

  predicate StoppedBeforeParsing(r: Result<Certificate, AcqError>) {
    r == Err(TooManyTries) || (r.Err? && r.error.FetchFailed?)
  }

  /** `getValidCert(tries)`. */
  function GetValidCert(tries: nat, fetch: Outcome<string>, parse: nat -> ParseResult, clock: nat -> int): (a: Acquisition)
    // the ceiling: no fetch and no parse once it is passed
    ensures tries > MaxTries ==> a == Acquisition(Err(TooManyTries), 0, 0, 1)
    // the fetch runs on attempt 0 only, so a top-level call fetches exactly once
    ensures a.fetches == (if tries == 0 then 1 else 0)
    // a failed fetch is returned at once
    ensures tries == 0 && fetch.Fail? ==> a == Acquisition(Err(FetchFailed(fetch.error)), 1, 0, 1)
    // bounded recursion: at most four invocations from attempt 0
    ensures tries <= MaxTries + 1 ==> 1 <= a.calls <= MaxTries + 2 - tries
    // every invocation parses once, except one that stops at the ceiling or the fetch
    ensures a.calls == a.parses + (if StoppedBeforeParsing(a.result) then 1 else 0)
    // a returned certificate was read within the budget and valid when checked
    ensures a.result.Ok? ==>
              exists k :: tries <= k <= MaxTries && parse(k) == Parsed(a.result.value)
                          && ValidAt(a.result.value, clock(k))
    // "too new" was seen on some attempt within the budget
    ensures a.result == Err(TooNew) ==>
              exists k :: tries <= k <= MaxTries && parse(k).Parsed? && TooNewAt(parse(k).cert, clock(k))
    decreases MaxTries + 1 - tries
  {
    if tries > MaxTries then Acquisition(Err(TooManyTries), 0, 0, 1)
    else if tries == 0 && fetch.Fail? then Acquisition(Err(FetchFailed(fetch.error)), 1, 0, 1)
    else
      var fetched := if tries == 0 then 1 else 0;
      match parse(tries)
      case Unparsable(_) =>
        var a := GetValidCert(tries + 1, fetch, parse, clock);
        Acquisition(a.result, a.fetches + fetched, a.parses + 1, a.calls + 1)
      case Parsed(c) =>
        if TooNewAt(c, clock(tries)) then Acquisition(Err(TooNew), fetched, 1, 1)
        else if ExpiredAt(c, clock(tries)) then
          var a := GetValidCert(tries + 1, fetch, parse, clock);
          Acquisition(a.result, a.fetches + fetched, a.parses + 1, a.calls + 1)
        else Acquisition(Ok(c), fetched, 1, 1)
  }

  /** The first attempt that settles decides the result: a certificate that
      is too new fails, any other is returned. */
  lemma {:induction false} FirstSettledDecides(tries: nat, k: nat, fetch: Outcome<string>,
                                               parse: nat -> ParseResult, clock: nat -> int)
    requires tries > 0 || fetch.Pass?
    requires FirstSettledAt(parse, clock, tries, k)
    ensures GetValidCert(tries, fetch, parse, clock).result ==
            (if TooNewAt(parse(k).cert, clock(k)) then Err(TooNew) else Ok(parse(k).cert))
    decreases k - tries
  {
    if tries < k {
      assert !Settles(parse, clock, tries);
      FirstSettledDecides(tries + 1, k, fetch, parse, clock);
    }
  }

  /** When no attempt within the budget settles, an expired or unreadable
      certificate is never handed out: the ceiling is reached. */
  lemma {:induction false} NothingSettlesExhaustsTries(tries: nat, fetch: Outcome<string>,
                                                       parse: nat -> ParseResult, clock: nat -> int)
    requires tries > 0 || fetch.Pass?
    requires forall j :: tries <= j <= MaxTries ==> !Settles(parse, clock, j)
    ensures GetValidCert(tries, fetch, parse, clock).result == Err(TooManyTries)
    decreases MaxTries + 1 - tries
  {
    if tries <= MaxTries {
      assert !Settles(parse, clock, tries);
      NothingSettlesExhaustsTries(tries + 1, fetch, parse, clock);
    }
  }

  /** A certificate that is valid on the first attempt is returned as is,
      after one fetch and one parse. */
  lemma ValidFirstTry(c: Certificate, fetch: Outcome<string>, parse: nat -> ParseResult, clock: nat -> int)
    requires fetch.Pass? && parse(0) == Parsed(c) && ValidAt(c, clock(0))
    ensures GetValidCert(0, fetch, parse, clock) == Acquisition(Ok(c), 1, 1, 1)
  {
  }

  /** A certificate that is not valid yet fails at once, whatever budget
      is left. */
  lemma TooNewIsFatal(tries: nat, c: Certificate, fetch: Outcome<string>, parse: nat -> ParseResult, clock: nat -> int)
    requires tries <= MaxTries && (tries > 0 || fetch.Pass?)
    requires parse(tries) == Parsed(c) && TooNewAt(c, clock(tries))
    ensures GetValidCert(tries, fetch, parse, clock).result == Err(TooNew)
    ensures GetValidCert(tries, fetch, parse, clock).calls == 1
  {
  }

  /** The policy written as the bounded loop it amounts to; it returns what
      the recursive policy returns from attempt 0. */
  method AcquireLoop(fetch: Outcome<string>, parse: nat -> ParseResult, clock: nat -> int)
    returns (r: Result<Certificate, AcqError>, parses: nat)
    ensures r == GetValidCert(0, fetch, parse, clock).result
    ensures parses == GetValidCert(0, fetch, parse, clock).parses
    ensures parses <= MaxTries + 1
  {
    if fetch.Fail? {
      return Err(FetchFailed(fetch.error)), 0;
    }
    var tries: nat := 0;
    parses := 0;
    while tries <= MaxTries
      invariant tries <= MaxTries + 1
      invariant parses == tries
      invariant GetValidCert(0, fetch, parse, clock).result == GetValidCert(tries, fetch, parse, clock).result
      invariant GetValidCert(0, fetch, parse, clock).parses == tries + GetValidCert(tries, fetch, parse, clock).parses
      decreases MaxTries + 1 - tries
    {
      var p := parse(tries);
      parses := parses + 1;
      if p.Parsed? && TooNewAt(p.cert, clock(tries)) {
        return Err(TooNew), parses;
      }
      if p.Parsed? && !ExpiredAt(p.cert, clock(tries)) {
        return Ok(p.cert), parses;
      }
      tries := tries + 1;
    }
    r := Err(TooManyTries);
  }
}
