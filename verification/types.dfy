/** The data shapes exchanged between the server, the client and the
    command-line tools. */
module Types {
  import opened Base

  /** The names an issued certificate covers; only `Main` is ever looked at. */
  datatype AcmeDomain = AcmeDomain(main: string, sans: seq<string>)

  /** One entry of the `Certificates` list of the ACME state file; the
      certificate and key are base64 text there. */
  datatype AcmeCertificate = AcmeCertificate(domain: AcmeDomain, certificate: string, key: string)

  /** The payload of a caller's signed token: the domains it may fetch. */
  datatype Auth = Auth(domains: seq<string>)

  /** The JSON body of a successful certificate request. */
  datatype CertResponse = CertResponse(cert: Bytes, key: Bytes)
}
