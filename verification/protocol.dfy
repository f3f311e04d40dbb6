/** The client and the server agree on the shape of a certificate request:
    the server reads back, from what the client sends, exactly the domain
    and the token the client was given. */
module Protocol {
  import opened Base
  import Client
  import Server

  /** The path the server sees when the base URL has no path of its own. */
  function PathOf(domain: string): string {
    Server.CertPath + domain
  }

  /** The request the client builds names the domain at the end of its URL
      and carries the token the server will verify. */
  lemma {:induction false} ServerReadsClientRequest(url: string, domain: string, jwt: string, env: Client.Environment)
    requires Client.PrepareRequest(url, domain, jwt, env).Ok?
    ensures var req := Client.PrepareRequest(url, domain, jwt, env).value;
            && req.authorization != ""
            && HasPrefix(req.authorization, Server.Bearer)
            && Server.TokenOf(req.authorization) == Client.Fallback(jwt, env, "JWT")
            && Server.DomainOf(PathOf(Client.Fallback(domain, env, "DOMAIN"))) == Client.Fallback(domain, env, "DOMAIN")
            && Server.DomainOf(PathOf(Client.Fallback(domain, env, "DOMAIN"))) != ""
  {
    TrimPrefixOfConcat(Server.Bearer, Client.Fallback(jwt, env, "JWT"));
    TrimPrefixOfConcat(Server.CertPath, Client.Fallback(domain, env, "DOMAIN"));
  }

  /** End to end: a client request succeeds at the server exactly when the
      token verifies, lists the domain, and the ACME file names it. */
  lemma ClientRequestServed(url: string, domain: string, jwt: string, env: Client.Environment,
                            verify: string -> Server.Verification, acme: Server.AcmeFile, decode: string -> Bytes)
    requires Client.PrepareRequest(url, domain, jwt, env).Ok?
    ensures var req := Client.PrepareRequest(url, domain, jwt, env).value;
            var d := Client.Fallback(domain, env, "DOMAIN");
            var t := Client.Fallback(jwt, env, "JWT");
            Server.GetCert(PathOf(d), req.authorization, verify, acme, decode).status == Server.StatusOK
            <==> verify(t).Verified? && d in verify(t).payload.domains
                 && acme.Loaded? && Server.FirstEntry(acme.certificates, d).Some?
  {
    ServerReadsClientRequest(url, domain, jwt, env);
  }
}
