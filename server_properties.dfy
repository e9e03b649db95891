/** What the route handlers promise: the order of their guards, that nothing
    is signed, revoked or regenerated unless every guard passed, which
    credential is used, and how revocation parameters are converted. */
module ServerProperties {
  import opened Common
  import opened RubyString
  import opened SanBuilder
  import opened Server

  /** The index of the first failing check is the one index before which
      every check passes and at which a check fails (or the end). */
  lemma {:induction false} FirstFailingAt(checks: seq<Check>, k: nat)
    requires k <= |checks|
    requires forall i :: 0 <= i < k ==> checks[i].passes
    requires k < |checks| ==> !checks[k].passes
    ensures FirstFailing(checks) == k
  {
    if k > 0 {
      assert checks[0].passes;
      FirstFailingAt(checks[1..], k - 1);
    }
  }

  // ---------------------------------------------------------------------
  // Certificate issuance

  /** The issuance route fails exactly when one of its six guards fails, and
      then with the message of the first guard that fails. */
  lemma IssueRejectsAtFirstFailingCheck(env: Collaborators, p: IssueParams)
    ensures var checks := IssueChecks(env, p);
      var k := FirstFailing(checks);
      var r := IssueCertificate(env, p);
      && (r.body.Err? <==> k < |checks|)
      && (k < |checks| ==> r.body.message == checks[k].message)
  {
    var checks := IssueChecks(env, p);
    if p.ca.None? {
      FirstFailingAt(checks, 0);
    } else if p.ca.value !in env.caNames {
      FirstFailingAt(checks, 1);
    } else if p.profile.None? {
      FirstFailingAt(checks, 2);
    } else if p.validityPeriod.None? {
      FirstFailingAt(checks, 3);
    } else if p.csr.None? && p.spki.None? {
      FirstFailingAt(checks, 4);
    } else if |env.parseSubject(p.body)| == 0 {
      FirstFailingAt(checks, 5);
    } else {
      FirstFailingAt(checks, 6);
    }
  }

  /** A rejected issuance has called nothing but, at most, the subject parser:
      no CSR or SPKI is built, nothing is enforced or signed. */
  lemma IssueRejectionHasNoEffects(env: Collaborators, p: IssueParams)
    requires IssueCertificate(env, p).body.Err?
    ensures var r := IssueCertificate(env, p);
      r.calls == [] || (r.calls == [ParseSubject(p.body)] && r.body.message == MUST_PROVIDE_SUBJECT)
  {
  }

  /** A successful issuance has passed every guard, signs exactly once, as its
      last call, the signer options `build_and_enforce` returned just before,
      and returns that certificate. The request given to `build_and_enforce`
      carries the route's profile, parsed subject, extensions, digest and
      converted validity period. */
  lemma IssueSignsOnceWhatWasEnforced(env: Collaborators, p: IssueParams)
    requires IssueCertificate(env, p).body.Ok?
    ensures AllPass(IssueChecks(env, p))
    ensures var r := IssueCertificate(env, p);
      var ca := p.ca.value;
      var request := r.body.value.cert.opts.request;
      var period := env.convertPeriod(p.validityPeriod.value);
      && r.body.value == CertificatePem(Signed(ca, Enforced(ca, request)))
      && |r.calls| == 5
      && r.calls[0] == ParseSubject(p.body)
      && r.calls[1] == ConvertPeriod(p.validityPeriod.value)
      && r.calls[3] == BuildAndEnforce(ca, request)
      && r.calls[4] == Sign(ca, Enforced(ca, request))
      && (forall i :: 0 <= i < 4 ==> !r.calls[i].Sign?)
      && request.profileName == p.profile.value
      && request.subject == env.parseSubject(p.body)
      && request.extensions == SanExtensions(p.extensions)
      && request.messageDigest == p.messageDigest
      && request.notBefore == period.notBefore
      && request.notAfter == period.notAfter
  {
  }

  /** With a CSR parameter the CSR path is taken, whether or not an SPKI is
      given too. */
  lemma CsrTakesPrecedenceOverSpki(env: Collaborators, p: IssueParams)
    requires p.csr.Some?
    requires IssueCertificate(env, p).body.Ok?
    ensures var r := IssueCertificate(env, p);
      && r.body.value.cert.opts.request.credential == SuppliedCsr(p.csr.value)
      && r.calls[2] == BuildCsr(p.csr.value)
      && forall c :: c in r.calls ==> !c.BuildSpki?
  {
  }

  /** Without a CSR the SPKI path is taken, and the SPKI is built with the
      subject parsed from the request body. */
  lemma SpkiBoundToParsedSubject(env: Collaborators, p: IssueParams)
    requires p.csr.None? && p.spki.Some?
    requires IssueCertificate(env, p).body.Ok?
    ensures var r := IssueCertificate(env, p);
      var subject := env.parseSubject(p.body);
      && r.body.value.cert.opts.request.credential == SuppliedSpki(p.spki.value, subject)
      && r.calls[2] == BuildSpki(p.spki.value, subject)
  {
  }

  // ---------------------------------------------------------------------
  // PKCS12 issuance

  /** The PKCS12 route fails exactly when one of its five guards fails, and
      then with the message of the first guard that fails. */
  lemma P12RejectsAtFirstFailingCheck(env: Collaborators, p: IssueParams)
    ensures var checks := P12Checks(env, p);
      var k := FirstFailing(checks);
      var r := IssueP12(env, p);
      && (r.body.Err? <==> k < |checks|)
      && (k < |checks| ==> r.body.message == checks[k].message && r.calls == (if k == 4 then [ParseSubject(p.body)] else []))
  {
    var checks := P12Checks(env, p);
    if p.ca.None? {
      FirstFailingAt(checks, 0);
    } else if p.ca.value !in env.caNames {
      FirstFailingAt(checks, 1);
    } else if p.profile.None? {
      FirstFailingAt(checks, 2);
    } else if p.validityPeriod.None? {
      FirstFailingAt(checks, 3);
    } else if |env.parseSubject(p.body)| == 0 {
      FirstFailingAt(checks, 4);
    } else {
      FirstFailingAt(checks, 5);
    }
  }

  /** The PKCS12 route does not look at the `csr` and `spki` parameters. */
  lemma P12IgnoresCredentialParams(env: Collaborators, p: IssueParams, csr: Option<string>, spki: Option<string>)
    ensures IssueP12(env, p.(csr := csr, spki := spki)) == IssueP12(env, p)
  {
  }

  /** When a CSR or an SPKI is given, the PKCS12 route rejects exactly the
      requests the issuance route rejects, with the same message and the same
      calls made. */
  lemma P12AgreesWithIssueOnRejection(env: Collaborators, p: IssueParams)
    requires p.csr.Some? || p.spki.Some?
    ensures IssueP12(env, p).body.Err? <==> IssueCertificate(env, p).body.Err?
    ensures IssueP12(env, p).body.Err? ==> IssueP12(env, p) == IssueCertificate(env, p)
  {
  }

  /** A successful PKCS12 issuance generates a 2048-bit RSA key, builds a CSR
      with that key over the parsed subject's CN, O, L, ST and C, enforces
      the route's profile, subject, extensions, digest and converted validity
      period, signs the result once, and only then writes the signed certificate and the key to the
      fixed file with an empty password. */
  lemma P12GeneratesKeyThenSigns(env: Collaborators, p: IssueParams)
    requires IssueP12(env, p).body.Ok?
    ensures AllPass(P12Checks(env, p))
    ensures var r := IssueP12(env, p);
      var ca := p.ca.value;
      var subject := env.parseSubject(p.body);
      var key := GeneratedKey("RSA", 2048);
      var cert := r.body.value.cert;
      var request := cert.opts.request;
      var csrSubject := CsrSubject(Lookup(subject, "CN"), Lookup(subject, "O"), Lookup(subject, "L"),
                                   Lookup(subject, "ST"), Lookup(subject, "C"));
      && cert == Signed(ca, Enforced(ca, request))
      && request.credential == GeneratedCsr(key, csrSubject)
      && request.profileName == p.profile.value
      && request.subject == subject
      && request.extensions == SanExtensions(p.extensions)
      && request.messageDigest == p.messageDigest
      && request.notBefore == env.convertPeriod(p.validityPeriod.value).notBefore
      && request.notAfter == env.convertPeriod(p.validityPeriod.value).notAfter
      && r.calls == [ParseSubject(p.body), ConvertPeriod(p.validityPeriod.value),
                     GenerateKey("RSA", 2048), NewCsr(key, csrSubject),
                     BuildAndEnforce(ca, request), Sign(ca, Enforced(ca, request)),
                     WritePkcs12(cert, key, "output.p12", "")]
  {
  }

  // ---------------------------------------------------------------------
  // Revocation and CRL generation

  /** Revocation checks the CA, that it is known, then the serial; it changes
      nothing when one fails, and otherwise revokes the serial text with the
      normalised reason and returns the CRL it then regenerates. */
  lemma RevokeOutcome(env: Collaborators, ca: Option<string>, serial: Option<string>, reason: Option<string>)
    ensures var checks := RevocationChecks(env, ca, serial);
      var k := FirstFailing(checks);
      var r := Revoke(env, ca, serial, reason);
      if k < |checks| then r == Response([], Err(checks[k].message))
      else ca.Some? && serial.Some? && r == Response([RevokeCert(ca.value, serial.value, NormaliseReason(reason)), GenerateCrl(ca.value)],
                         Ok(CrlPem(ca.value)))
  {
    var checks := RevocationChecks(env, ca, serial);
    if ca.None? {
      FirstFailingAt(checks, 0);
    } else if ca.value !in env.caNames {
      FirstFailingAt(checks, 1);
    } else if serial.None? {
      FirstFailingAt(checks, 2);
    } else {
      FirstFailingAt(checks, 3);
    }
  }

  /** Unrevocation checks as revocation does; it changes nothing when a check
      fails, and otherwise unrevokes the serial read by `to_i` and returns the
      CRL it then regenerates. */
  lemma UnrevokeOutcome(env: Collaborators, ca: Option<string>, serial: Option<string>)
    ensures var checks := RevocationChecks(env, ca, serial);
      var k := FirstFailing(checks);
      var r := Unrevoke(env, ca, serial);
      if k < |checks| then r == Response([], Err(checks[k].message))
      else ca.Some? && serial.Some? && r == Response([UnrevokeCert(ca.value, ToI(serial.value)), GenerateCrl(ca.value)], Ok(CrlPem(ca.value)))
  {
    var checks := RevocationChecks(env, ca, serial);
    if ca.None? {
      FirstFailingAt(checks, 0);
    } else if ca.value !in env.caNames {
      FirstFailingAt(checks, 1);
    } else if serial.None? {
      FirstFailingAt(checks, 2);
    } else {
      FirstFailingAt(checks, 3);
    }
  }

  /** The CRL routes regenerate only for a known CA. */
  lemma CrlForCaOutcome(env: Collaborators, ca: string)
    ensures CrlForCa(env, ca).body.Err? <==> ca !in env.caNames
    ensures CrlForCa(env, ca).body.Err? ==> CrlForCa(env, ca) == Response([], Err(CA_NOT_FOUND))
    ensures CrlForCa(env, ca).body.Ok? ==> CrlForCa(env, ca) == Response([GenerateCrl(ca)], Ok(CrlPem(ca)))
  {
  }

  /** No reason is passed exactly when the parameter is absent or empty; a
      decimal reason code is passed as that code. */
  lemma ReasonCodeRoundTrip(reason: Option<string>, n: int)
    ensures NormaliseReason(reason).None? <==> reason.None? || reason == Some("")
    ensures NormaliseReason(Some(IntToS(n))) == Some(n)
  {
    ToIInvertsToS(n);
  }

  /** A non-empty reason that does not start with a number (after any
      whitespace) is passed as reason code 0, not as no reason. */
  lemma NonNumericReasonIsZero(w: string, s: string)
    requires forall k :: 0 <= k < |w| ==> IsSpace(w[k])
    requires s != [] && !IsSpace(s[0]) && !IsDigit(s[0]) && s[0] != '-' && s[0] != '+'
    ensures NormaliseReason(Some(w + s)) == Some(0)
  {
    ToISkipsLeadingSpace(w, s);
  }

  /** Unrevocation passes a decimal serial as the number it spells, while
      revocation passes the serial text as it was given. */
  lemma SerialConversions(env: Collaborators, ca: string, n: int, reason: Option<string>)
    requires ca in env.caNames
    ensures Unrevoke(env, Some(ca), Some(IntToS(n))).calls[0] == UnrevokeCert(ca, n)
    ensures Revoke(env, Some(ca), Some(IntToS(n)), reason).calls[0] == RevokeCert(ca, IntToS(n), NormaliseReason(reason))
  {
    ToIInvertsToS(n);
  }
}
