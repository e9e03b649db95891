/** The route handlers of the certificate authority's HTTP front end
    (`R509::CertificateAuthority::HTTP::Server`). Each handler checks its
    parameters in a fixed order, raising an `ArgumentError` at the first
    failure, and only then calls into the r509 library. Those library calls
    are not modelled: a handler returns the calls it makes, in order, and the
    value whose PEM encoding is the response body, or the message of the
    error it raised. A value a library call returns (a key, the signer
    options, a certificate) is named by the call and the arguments it was
    computed from, so the trace shows which result flows into which call. */
module Server {
  import opened Common
  import opened RubyString
  import opened SanBuilder

  const MUST_PROVIDE_CA := "Must provide a CA"
  const CA_NOT_FOUND := "CA not found"
  const MUST_PROVIDE_PROFILE := "Must provide a CA profile"
  const MUST_PROVIDE_VALIDITY_PERIOD := "Must provide a validity period"
  const MUST_PROVIDE_CSR_OR_SPKI := "Must provide a CSR or SPKI"
  const MUST_PROVIDE_SUBJECT := "Must provide a subject"
  const CA_MUST_BE_PROVIDED := "CA must be provided"
  const SERIAL_MUST_BE_PROVIDED := "Serial must be provided"

  /** The key the PKCS12 route generates, and where it writes the bundle. */
  const P12_KEY_TYPE := "RSA"
  const P12_KEY_BITS: nat := 2048
  const P12_FILE := "output.p12"
  const P12_PASSWORD := ""

  /** A subject as the subject parser returns it: attribute name to value.
      It is empty when the request body names no attribute. */
  type Subject = map<string, string>

  /** What the validity period converter returns for a period parameter. */
  datatype Period = Period(notBefore: int, notAfter: int)

  /** What the handlers consult but do not implement. The three registries
      (signers, options builders, CRL administrators) are built from the same
      configured CA names, so one set of names stands for all three; the
      subject parser and the validity period converter are given as functions. */
  datatype Collaborators = Collaborators(
    caNames: set<string>,
    parseSubject: string -> Subject,
    convertPeriod: string -> Period)

  /** The parameters of an issuance request, each absent or present, and the
      raw request body the subject is parsed from. */
  datatype IssueParams = IssueParams(
    body: string,
    ca: Option<string>,
    profile: Option<string>,
    validityPeriod: Option<string>,
    csr: Option<string>,
    spki: Option<string>,
    messageDigest: Option<string>,
    extensions: Option<ExtensionParams>)

  /** The subject hash given to `R509::CSR.new` on the PKCS12 route. */
  datatype CsrSubject = CsrSubject(
    cn: Option<string>, o: Option<string>, l: Option<string>, st: Option<string>, c: Option<string>)

  /** The private key `R509::PrivateKey.new` generates for the given type and
      bit length. */
  datatype Key = GeneratedKey(keyType: string, bitLength: nat)

  /** What the certificate is signed over: a CSR built from request text, an
      SPKI built from request text and the parsed subject, or a CSR generated
      on the server with the given key. */
  datatype Credential =
    | SuppliedCsr(csr: string)
    | SuppliedSpki(spki: string, subject: Subject)
    | GeneratedCsr(key: Key, csrSubject: CsrSubject)

  /** The arguments given to `build_and_enforce`. */
  datatype SignerRequest = SignerRequest(
    credential: Credential,
    profileName: string,
    subject: Subject,
    extensions: seq<Extension>,
    messageDigest: Option<string>,
    notBefore: int,
    notAfter: int)

  /** The signer options `build_and_enforce` returns for a request to a CA. */
  datatype SignerOpts = Enforced(ca: string, request: SignerRequest)

  /** The certificate a CA's `sign` returns for the given signer options. */
  datatype Certificate = Signed(ca: string, opts: SignerOpts)

  /** The calls a handler makes to code outside this file. */
  datatype Call =
    | ParseSubject(body: string)
    | ConvertPeriod(period: string)
    | BuildCsr(csr: string)
    | BuildSpki(spki: string, subject: Subject)
    | GenerateKey(keyType: string, bitLength: nat)
    | NewCsr(key: Key, csrSubject: CsrSubject)
    | BuildAndEnforce(ca: string, request: SignerRequest)
    | Sign(ca: string, opts: SignerOpts)
    | WritePkcs12(cert: Certificate, key: Key, file: string, password: string)
    | RevokeCert(ca: string, serial: string, reason: Option<int>)
    | UnrevokeCert(ca: string, serialNumber: int)
    | GenerateCrl(ca: string)

  /** The value whose PEM encoding a successful handler returns. */
  datatype Pem = CertificatePem(cert: Certificate) | CrlPem(ca: string)

  datatype Response = Response(calls: seq<Call>, body: Result<Pem>)

  /** One guard of a handler: whether it passes, and the message it raises
      when it does not. */
  datatype Check = Check(passes: bool, message: string)

  /** The index of the first failing check, or the number of checks when
      every check passes. */
  function FirstFailing(checks: seq<Check>): (k: nat)
    ensures k <= |checks|
    ensures forall i :: 0 <= i < k ==> checks[i].passes
    ensures k < |checks| ==> !checks[k].passes
  {
    if checks == [] || !checks[0].passes then 0 else 1 + FirstFailing(checks[1..])
  }

  predicate AllPass(checks: seq<Check>) {
    forall c :: c in checks ==> c.passes
  }

  /** `subject[key]`: nil when the attribute is missing. */
  function Lookup(s: Subject, key: string): (r: Option<string>)
    ensures r.Some? <==> key in s
    ensures r.Some? ==> r.value == s[key]
  {
    if key in s then Some(s[key]) else None
  }

  /** The CN, O, L, ST and C of the parsed subject, each nil when missing;
      any other attribute is not passed on. */
  function CsrSubjectOf(s: Subject): (r: CsrSubject)
    ensures r.cn.Some? <==> "CN" in s
    ensures r.o.Some? <==> "O" in s
    ensures r.l.Some? <==> "L" in s
    ensures r.st.Some? <==> "ST" in s
    ensures r.c.Some? <==> "C" in s
    ensures r.cn.Some? ==> r.cn.value == s["CN"]
    ensures r.o.Some? ==> r.o.value == s["O"]
    ensures r.l.Some? ==> r.l.value == s["L"]
    ensures r.st.Some? ==> r.st.value == s["ST"]
    ensures r.c.Some? ==> r.c.value == s["C"]
    ensures forall k :: k in s && k !in {"CN", "O", "L", "ST", "C"} ==> r == CsrSubjectOf(s - {k})
  {
    CsrSubject(Lookup(s, "CN"), Lookup(s, "O"), Lookup(s, "L"), Lookup(s, "ST"), Lookup(s, "C"))
  }

  function Reject(calls: seq<Call>, message: string): Response {
    Response(calls, Err(message))
  }

  // ---------------------------------------------------------------------
  // POST /1/certificate/issue

  /** The guards of the certificate issuance route, in the order it tests them. */
  function IssueChecks(env: Collaborators, p: IssueParams): (r: seq<Check>)
    ensures |r| == 6
    ensures AllPass(r) <==> && p.ca.Some? && p.ca.value in env.caNames && p.profile.Some?
                            && p.validityPeriod.Some? && (p.csr.Some? || p.spki.Some?)
                            && |env.parseSubject(p.body)| > 0
  {
    [ Check(p.ca.Some?, MUST_PROVIDE_CA),
      Check(p.ca.Some? && p.ca.value in env.caNames, CA_NOT_FOUND),
      Check(p.profile.Some?, MUST_PROVIDE_PROFILE),
      Check(p.validityPeriod.Some?, MUST_PROVIDE_VALIDITY_PERIOD),
      Check(p.csr.Some? || p.spki.Some?, MUST_PROVIDE_CSR_OR_SPKI),
      Check(|env.parseSubject(p.body)| > 0, MUST_PROVIDE_SUBJECT) ]
  }

  function IssueCertificate(env: Collaborators, p: IssueParams): (r: Response)
    ensures r.body.Ok? <==> AllPass(IssueChecks(env, p))
  {
    if p.ca.None? then Reject([], MUST_PROVIDE_CA)
    else if p.ca.value !in env.caNames then Reject([], CA_NOT_FOUND)
    else if p.profile.None? then Reject([], MUST_PROVIDE_PROFILE)
    else if p.validityPeriod.None? then Reject([], MUST_PROVIDE_VALIDITY_PERIOD)
    else if p.csr.None? && p.spki.None? then Reject([], MUST_PROVIDE_CSR_OR_SPKI)
    else
      var ca := p.ca.value;
      var subject := env.parseSubject(p.body);
      if |subject| == 0 then Reject([ParseSubject(p.body)], MUST_PROVIDE_SUBJECT)
      else
        var extensions := SanExtensions(p.extensions);
        var period := env.convertPeriod(p.validityPeriod.value);
        var prefix := [ParseSubject(p.body), ConvertPeriod(p.validityPeriod.value)];
        if p.csr.Some? then
          var request := SignerRequest(SuppliedCsr(p.csr.value), p.profile.value, subject, extensions,
                                       p.messageDigest, period.notBefore, period.notAfter);
          var opts := Enforced(ca, request);
          Response(prefix + [BuildCsr(p.csr.value), BuildAndEnforce(ca, request), Sign(ca, opts)],
                   Ok(CertificatePem(Signed(ca, opts))))
        else if p.spki.Some? then
          var request := SignerRequest(SuppliedSpki(p.spki.value, subject), p.profile.value, subject, extensions,
                                       p.messageDigest, period.notBefore, period.notAfter);
          var opts := Enforced(ca, request);
          Response(prefix + [BuildSpki(p.spki.value, subject), BuildAndEnforce(ca, request), Sign(ca, opts)],
                   Ok(CertificatePem(Signed(ca, opts))))
        else
          Reject(prefix, MUST_PROVIDE_CSR_OR_SPKI)
  }

  // ---------------------------------------------------------------------
  // POST /1/p12/issue

  /** The guards of the PKCS12 route: those of certificate issuance without
      the CSR-or-SPKI guard. */
  function P12Checks(env: Collaborators, p: IssueParams): (r: seq<Check>)
    ensures r == IssueChecks(env, p)[..4] + IssueChecks(env, p)[5..]
    ensures AllPass(r) <==> AllPass(IssueChecks(env, p.(csr := Some(""))))
  {
    [ Check(p.ca.Some?, MUST_PROVIDE_CA),
      Check(p.ca.Some? && p.ca.value in env.caNames, CA_NOT_FOUND),
      Check(p.profile.Some?, MUST_PROVIDE_PROFILE),
      Check(p.validityPeriod.Some?, MUST_PROVIDE_VALIDITY_PERIOD),
      Check(|env.parseSubject(p.body)| > 0, MUST_PROVIDE_SUBJECT) ]
  }

  function IssueP12(env: Collaborators, p: IssueParams): (r: Response)
    ensures r.body.Ok? <==> AllPass(P12Checks(env, p))
  {
    if p.ca.None? then Reject([], MUST_PROVIDE_CA)
    else if p.ca.value !in env.caNames then Reject([], CA_NOT_FOUND)
    else if p.profile.None? then Reject([], MUST_PROVIDE_PROFILE)
    else if p.validityPeriod.None? then Reject([], MUST_PROVIDE_VALIDITY_PERIOD)
    else
      var ca := p.ca.value;
      var subject := env.parseSubject(p.body);
      if |subject| == 0 then Reject([ParseSubject(p.body)], MUST_PROVIDE_SUBJECT)
      else
        var extensions := SanExtensions(p.extensions);
        var period := env.convertPeriod(p.validityPeriod.value);
        var key := GeneratedKey(P12_KEY_TYPE, P12_KEY_BITS);
        var csrSubject := CsrSubjectOf(subject);
        var request := SignerRequest(GeneratedCsr(key, csrSubject), p.profile.value, subject, extensions,
                                     p.messageDigest, period.notBefore, period.notAfter);
        var opts := Enforced(ca, request);
        var cert := Signed(ca, opts);
        Response([ParseSubject(p.body), ConvertPeriod(p.validityPeriod.value),
                  GenerateKey(P12_KEY_TYPE, P12_KEY_BITS), NewCsr(key, csrSubject),
                  BuildAndEnforce(ca, request), Sign(ca, opts), WritePkcs12(cert, key, P12_FILE, P12_PASSWORD)],
                 Ok(CertificatePem(cert)))
  }

  // ---------------------------------------------------------------------
  // POST /1/certificate/revoke, POST /1/certificate/unrevoke

  /** The guards of both revocation routes, in the order they test them. */
  function RevocationChecks(env: Collaborators, ca: Option<string>, serial: Option<string>): (r: seq<Check>)
    ensures |r| == 3
    ensures AllPass(r) <==> ca.Some? && ca.value in env.caNames && serial.Some?
  {
    [ Check(ca.Some?, CA_MUST_BE_PROVIDED),
      Check(ca.Some? && ca.value in env.caNames, CA_NOT_FOUND),
      Check(serial.Some?, SERIAL_MUST_BE_PROVIDED) ]
  }

  /** The reason code handed to `revoke_cert`: none for an absent or empty
      `reason` parameter, otherwise the parameter read by `to_i`. */
  function NormaliseReason(reason: Option<string>): (r: Option<int>)
    ensures r.None? <==> reason.None? || reason.value == ""
    ensures r.Some? ==> r.value == ToI(reason.value)
  {
    if reason.None? || reason.value == "" then None else Some(ToI(reason.value))
  }

  function Revoke(env: Collaborators, ca: Option<string>, serial: Option<string>, reason: Option<string>): (r: Response)
    ensures r.body.Ok? <==> AllPass(RevocationChecks(env, ca, serial))
  {
    if ca.None? then Reject([], CA_MUST_BE_PROVIDED)
    else if ca.value !in env.caNames then Reject([], CA_NOT_FOUND)
    else if serial.None? then Reject([], SERIAL_MUST_BE_PROVIDED)
    else
      Response([RevokeCert(ca.value, serial.value, NormaliseReason(reason)), GenerateCrl(ca.value)],
               Ok(CrlPem(ca.value)))
  }

  function Unrevoke(env: Collaborators, ca: Option<string>, serial: Option<string>): (r: Response)
    ensures r.body.Ok? <==> AllPass(RevocationChecks(env, ca, serial))
  {
    if ca.None? then Reject([], CA_MUST_BE_PROVIDED)
    else if ca.value !in env.caNames then Reject([], CA_NOT_FOUND)
    else if serial.None? then Reject([], SERIAL_MUST_BE_PROVIDED)
    else
      Response([UnrevokeCert(ca.value, ToI(serial.value)), GenerateCrl(ca.value)], Ok(CrlPem(ca.value)))
  }

  // ---------------------------------------------------------------------
  // GET /1/crl/:ca/get (deprecated) and GET /1/crl/:ca/generate

  /** Both CRL routes: the CA name is a path segment, so it is always given. */
  function CrlForCa(env: Collaborators, ca: string): (r: Response)
    ensures r.body.Ok? <==> ca in env.caNames
  {
    if ca !in env.caNames then Reject([], CA_NOT_FOUND)
    else Response([GenerateCrl(ca)], Ok(CrlPem(ca)))
  }
}
