# r509 certificate authority HTTP front end, modelled in Dafny

This project models the request handlers of `R509::CertificateAuthority::HTTP::Server`, the Sinatra front end of an r509 certificate authority. The cryptography and the CRL bookkeeping belong to the r509 library. What the server itself decides is modelled here:

- Certificate issuance (`POST /1/certificate/issue`) tests six guards in a fixed order, and the first failing guard raises its `ArgumentError`:
  1. `ca` is given.
  2. The CA is known.
  3. `profile` is given.
  4. `validityPeriod` is given.
  5. `csr` or `spki` is given.
  6. The subject parsed from the request body is not empty.
- Only when every guard passes does the handler build the CSR or SPKI, call `build_and_enforce` and sign. When both a CSR and an SPKI are given, the CSR is used.
- PKCS12 issuance (`POST /1/p12/issue`) tests the same guards except the CSR-or-SPKI one. It then generates a 2048-bit RSA key and a CSR over the subject's CN, O, L, ST and C, signs it, and writes `output.p12`.
- Both issuance routes build the subject-alternative-name extension the same way:
  - An explicit `subjectAlternativeName` list wins over `dNSNames`.
  - Empty entries are dropped.
  - `dNSNames` entries are stripped and tagged 2, the `dNSName [2]` choice of section 4.2.1.6 of RFC 5280.
  - The extension is emitted only when a name survives.
- Revocation and unrevocation (`POST /1/certificate/revoke`, `/unrevoke`) check that `ca` is given, that the CA is known, and that `serial` is given. Revocation turns an absent or empty `reason` into no reason, and any other `reason` into `reason.to_i`. Unrevocation passes `serial.to_i`. Both then regenerate the CRL and return it.
- The CRL routes (`GET /1/crl/:ca/get` and `/generate`) regenerate the CRL of a known CA and reject an unknown one.

The modules:

- `Common`: the `Option` and `Result` datatypes.
- `RubyString`: Ruby's `String#strip`, `String#to_i` and `Integer#to_s`.
- `SanBuilder`: the SAN extension. `SanExtensions` specifies it and is what the handlers use. `BuildSanExtensions` is the imperative version, proved equal to `SanExtensions`. For `dNSNames` it calls `CreateDnsItems`, a loop that grows a new `GeneralNames` object with `CreateItem`.
- `Server`: the handlers, as functions. A handler returns a `Response`. It holds the calls the handler made into the r509 library, in order, and either the value whose PEM is the response body or the message of the `ArgumentError` the handler raised. A value a library call returns is named by the call and the arguments it came from: the key is `GeneratedKey(type, bits)`, what `build_and_enforce` returns is `Enforced(ca, request)`, and what `sign` returns is `Signed(ca, opts)`. Each route's guards are also listed as an ordered `seq<Check>`, and `FirstFailing` finds the first guard that fails.
- `ServerProperties`: the lemmas that relate the handlers to their guard lists and state their effects.

Collaborators the server only consults are not modelled; they are given in `Collaborators`:

- The three registries of signers, options builders and CRL administrators. They are built from the same configured names, so one set `caNames` stands for all three.
- The subject parser, as a function from the request body to a subject map.
- The validity period converter, as a function from the `validityPeriod` text to a pair of times.

## Model

| member | source | states |
|---|---|---|
| `RubyString.LStrip` | lib/r509/certificateauthority/http/server.rb:146 | the left half of `strip`: the result is a suffix of the input, everything dropped is whitespace or NUL, and the result does not start with either |
| `RubyString.RStrip` | lib/r509/certificateauthority/http/server.rb:146 | the right half of `strip`: the result is a prefix of the input, everything dropped is whitespace or NUL, and the result does not end with either |
| `RubyString.Strip` | lib/r509/certificateauthority/http/server.rb:146 | a stripped dNSName is no longer than the entry, and begins and ends with a character that is neither whitespace nor NUL |
| `RubyString.StripIsTrimmedInfix` | lib/r509/certificateauthority/http/server.rb:146 | `strip` returns an infix of the entry, and everything it removes on either side is whitespace or NUL |
| `RubyString.StripKeepsTrimmed` | lib/r509/certificateauthority/http/server.rb:146 | an entry with nothing to strip at either end is passed on unchanged |
| `RubyString.StripPadded` | lib/r509/certificateauthority/http/server.rb:146 | one space on each side of a trimmed name is removed |
| `RubyString.StripIdempotent` | lib/r509/certificateauthority/http/server.rb:146 | stripping twice gives what stripping once gives |
| `RubyString.StripAllStripped` | lib/r509/certificateauthority/http/server.rb:146 | an entry made only of whitespace and NUL strips to the empty string |
| `RubyString.ToI` | lib/r509/certificateauthority/http/server.rb:293 | a negative result needs a minus sign followed by a digit after the leading whitespace, and text that starts with neither a sign nor a digit reads as 0 |
| `RubyString.ToIReadsLeadingInteger` | lib/r509/certificateauthority/http/server.rb:293 | `to_i` reads back any integer written by `to_s`, whatever text follows that does not continue the number |
| `RubyString.ToIInvertsToS` | lib/r509/certificateauthority/http/server.rb:316 | `to_i` is a left inverse of `to_s` on every integer |
| `RubyString.ToISkipsLeadingSpace` | lib/r509/certificateauthority/http/server.rb:293 | leading whitespace does not change what `to_i` reads |
| `SanBuilder.NonEmpty` | lib/r509/certificateauthority/http/server.rb:139 | the selected names are exactly the non-empty entries of the list, and there are no more of them than entries |
| `SanBuilder.NonEmptyIsEmpty` | lib/r509/certificateauthority/http/server.rb:140 | the selection is empty exactly when every entry is empty |
| `SanBuilder.NonEmptyAppend` | lib/r509/certificateauthority/http/server.rb:145 | the selection distributes over concatenation, so entries keep their input order |
| `SanBuilder.DnsGeneralNames` | lib/r509/certificateauthority/http/server.rb:145-147 | one item per selected entry, in order, each tagged 2 and holding the stripped entry |
| `SanBuilder.DnsGeneralNamesAppend` | lib/r509/certificateauthority/http/server.rb:145-147 | the items created for two lists of names are the items of the first followed by those of the second |
| `SanBuilder.GeneralNames.constructor` | lib/r509/certificateauthority/http/server.rb:144 | a new GeneralNames object holds no items |
| `SanBuilder.GeneralNames.CreateItem` | lib/r509/certificateauthority/http/server.rb:146 | `create_item` appends one item with the given tag and value and changes nothing else |
| `SanBuilder.SanExtensions` | lib/r509/certificateauthority/http/server.rb:137-151 | the extension list has at most one entry. An emitted extension holds either a non-empty list of non-empty names for the parser, or a non-empty list of items all tagged 2 |
| `SanBuilder.CreateDnsItems` | lib/r509/certificateauthority/http/server.rb:229-232 | the loop's new GeneralNames object holds, after the loop, one dNSName item per selected entry, in order, each the stripped entry |
| `SanBuilder.BuildSanExtensions` | lib/r509/certificateauthority/http/server.rb:222-236 | the array pushed to by the `subjectAlternativeName` branch or by the `dNSNames` branch equals the specified extension list |
| `SanBuilder.SanExtensionCount` | lib/r509/certificateauthority/http/server.rb:137-151 | there is at most one extension, and there is one exactly when the chosen list has a non-empty entry |
| `SanBuilder.SanKeyShadowsDnsNames` | lib/r509/certificateauthority/http/server.rb:138-151 | with a `subjectAlternativeName` key, `dNSNames` is ignored, even when every SAN entry is empty and no extension results |
| `SanBuilder.SanListPassedThrough` | lib/r509/certificateauthority/http/server.rb:138-142 | an explicit list with a non-empty entry gives one extension over its non-empty entries, unstripped and in order |
| `SanBuilder.DnsNamesBecomeStrippedItems` | lib/r509/certificateauthority/http/server.rb:143-150 | without a SAN key, the i-th selected `dNSNames` entry becomes the i-th item: tag 2, the entry stripped |
| `SanBuilder.WhitespaceEntryYieldsEmptyDnsName` | lib/r509/certificateauthority/http/server.rb:145-146 | the emptiness test comes before `strip`, so a whitespace-only entry survives and yields an empty dNSName |
| `SanBuilder.NoNamesNoExtension` | lib/r509/certificateauthority/http/server.rb:148-150 | a list of empty entries, no list, or no `extensions` gives no extension |
| `SanBuilder.DnsNamesDropEmptyAndStrip` | lib/r509/certificateauthority/http/server.rb:228-235 | a name, an empty entry and a padded name give exactly two items, the second stripped |
| `SanBuilder.DnsNamesExample` | lib/r509/certificateauthority/http/server.rb:228-235 | `["a.com", "", " b.com "]` gives exactly the items `a.com` and `b.com` |
| `Server.FirstFailing` | lib/r509/certificateauthority/http/server.rb:199-220 | the index returned is that of a failing guard before which every guard passes, or the number of guards when all pass |
| `ServerProperties.FirstFailingAt` | lib/r509/certificateauthority/http/server.rb:199-220 | the first failing guard is unique: any index with all guards before it passing and a failing guard at it is the one found |
| `Server.IssueChecks` | lib/r509/certificateauthority/http/server.rb:199-220 | six guards; all pass exactly when `ca` is given and known, `profile` and `validityPeriod` are given, `csr` or `spki` is given, and the parsed subject is not empty |
| `Server.IssueCertificate` | lib/r509/certificateauthority/http/server.rb:191-272 | certificate issuance succeeds exactly when all six guards pass |
| `ServerProperties.IssueRejectsAtFirstFailingCheck` | lib/r509/certificateauthority/http/server.rb:199-220 | issuance fails exactly when a guard fails, with the message of the first failing guard in the order ca, CA known, profile, validityPeriod, csr or spki, subject |
| `ServerProperties.IssueRejectionHasNoEffects` | lib/r509/certificateauthority/http/server.rb:199-220 | a rejected issuance has called at most the subject parser, and only when the subject guard failed; nothing was built, enforced or signed |
| `ServerProperties.IssueSignsOnceWhatWasEnforced` | lib/r509/certificateauthority/http/server.rb:238-271 | a successful issuance passed every guard. Its last call signs, once, the signer options that `build_and_enforce` returned for the request just before, and that certificate is returned. The request carries the profile, the parsed subject, the SAN extensions, the digest and the converted period |
| `ServerProperties.CsrTakesPrecedenceOverSpki` | lib/r509/certificateauthority/http/server.rb:240-251 | with a `csr` parameter the CSR factory is used and no SPKI is built, even if `spki` is also given |
| `ServerProperties.SpkiBoundToParsedSubject` | lib/r509/certificateauthority/http/server.rb:252-263 | without a CSR, the SPKI factory is given the SPKI text and the parsed subject, and the certificate is signed over that SPKI |
| `Server.P12Checks` | lib/r509/certificateauthority/http/server.rb:117-135 | the issuance guards without the CSR-or-SPKI guard, in the same order; they all pass exactly when the issuance guards would with a CSR given |
| `Server.CsrSubjectOf` | lib/r509/certificateauthority/http/server.rb:161-167 | the generated CSR's CN, O, L, ST and C are present exactly when the parsed subject has them, each with the subject's value, and no other attribute of the subject affects it |
| `Server.Lookup` | lib/r509/certificateauthority/http/server.rb:162-166 | `subject[key]` is nil exactly when the attribute is missing, and otherwise its value |
| `Server.IssueP12` | lib/r509/certificateauthority/http/server.rb:107-189 | PKCS12 issuance succeeds exactly when its five guards pass |
| `ServerProperties.P12RejectsAtFirstFailingCheck` | lib/r509/certificateauthority/http/server.rb:117-135 | PKCS12 issuance fails exactly when a guard fails, with the first failing guard's message, having called at most the subject parser |
| `ServerProperties.P12IgnoresCredentialParams` | lib/r509/certificateauthority/http/server.rb:117-135 | the PKCS12 route's outcome does not depend on the `csr` and `spki` parameters |
| `ServerProperties.P12AgreesWithIssueOnRejection` | lib/r509/certificateauthority/http/server.rb:117-135 | when a CSR or SPKI is given, the PKCS12 route rejects exactly what certificate issuance rejects, with the same message and calls |
| `ServerProperties.P12GeneratesKeyThenSigns` | lib/r509/certificateauthority/http/server.rb:153-188 | a successful PKCS12 issuance makes these calls in order: parse the subject, convert the period, generate an RSA 2048 key, build a CSR with that key over CN, O, L, ST and C, enforce the profile, subject, SAN extensions, digest and converted period, sign the enforced options once, then write the signed certificate and the key to `output.p12` with an empty password. It returns the signed certificate |
| `Server.RevocationChecks` | lib/r509/certificateauthority/http/server.rb:280-288 | three guards; all pass exactly when `ca` is given and known and `serial` is given |
| `Server.NormaliseReason` | lib/r509/certificateauthority/http/server.rb:290-294 | no reason exactly when `reason` is absent or empty, and otherwise `reason.to_i` |
| `Server.Revoke` | lib/r509/certificateauthority/http/server.rb:274-299 | revocation succeeds exactly when its three guards pass |
| `ServerProperties.RevokeOutcome` | lib/r509/certificateauthority/http/server.rb:280-298 | a failing guard makes no call and raises the first failing guard's message. Otherwise the serial text is revoked with the normalised reason, the CRL is regenerated, and that CRL is returned |
| `Server.Unrevoke` | lib/r509/certificateauthority/http/server.rb:301-319 | unrevocation succeeds exactly when its three guards pass |
| `ServerProperties.UnrevokeOutcome` | lib/r509/certificateauthority/http/server.rb:306-318 | a failing guard makes no call. Otherwise `serial.to_i` is unrevoked, the CRL is regenerated, and that CRL is returned |
| `Server.CrlForCa` | lib/r509/certificateauthority/http/server.rb:87-105 | the CRL routes succeed exactly for a known CA |
| `ServerProperties.CrlForCaOutcome` | lib/r509/certificateauthority/http/server.rb:87-105 | an unknown CA raises "CA not found" without regenerating; a known CA's CRL is regenerated once and returned |
| `ServerProperties.ReasonCodeRoundTrip` | lib/r509/certificateauthority/http/server.rb:290-294 | no reason is passed exactly when `reason` is absent or empty, and a decimal reason code is passed as that number |
| `ServerProperties.NonNumericReasonIsZero` | lib/r509/certificateauthority/http/server.rb:290-294 | a non-empty reason that does not start with a number, after any whitespace, is passed as code 0 and not as no reason |
| `ServerProperties.SerialConversions` | lib/r509/certificateauthority/http/server.rb:296-316 | unrevocation passes a decimal serial as the number it spells, while revocation passes the serial text unchanged |

Behaviours of the code worth noting, each kept in the model:

- A whitespace-only `dNSNames` entry is kept and yields an empty dNSName, because emptiness is tested before `strip` (`WhitespaceEntryYieldsEmptyDnsName`).
- The CA is looked up second, right after `ca` is checked and before `profile` is (`IssueRejectsAtFirstFailingCheck`).
- A request with both `csr` and `spki` is accepted, and the CSR is used (`CsrTakesPrecedenceOverSpki`).
- Only a subject that is empty as a whole is rejected. A subject without a CN passes the guard.

Ruby semantics assumed:

- `strip` removes ASCII whitespace and NUL at both ends, as Ruby 2.6 and later do.
- `to_i` skips leading whitespace and accepts one sign, an optional `0d` prefix, and single underscores between digits. Text with no number in front reads as 0.

## Left out

- Sinatra configuration, the `before` filter, content types and the helper accessors (lines 19-68, and `content_type :json` at line 108) are framework glue. The registries they fill are the immutable `Collaborators` given to every handler.
- Logging, both in the two `error` handlers (lines 70-80) and throughout the route handlers (the `log.info` calls at lines 88, 98, 110-115, 131-132, 155, 158, 183, 192-197, 216-217, 269, 278 and 304), is I/O. The model keeps the raised message, not the text the handler echoes back.
- The favicon and `/test/...` pages (lines 82-85, 321-337) are user interface.
- The r509 library is not modelled. Key generation, CSR construction, the CSR and SPKI factories, `build_and_enforce`, `sign`, `write_pkcs12`, and the `revoke_cert`, `unrevoke_cert` and `generate_crl` of `CRL::Administrator` appear only as entries in the returned call list, and their results as terms named by their arguments. `R509::ASN1.general_name_parser` appears only as the `ParsedGeneralNames` value holding the names it is given, and `to_pem` only as the `Pem` value of a successful body. A successful `Response` assumes that none of these calls raises.
- `SubjectParser` and `ValidityPeriodConverter` are not part of this model. They are total functions in `Collaborators`, so an exception either might raise is not modelled.
- The revocation list itself, its entries and its CRL number live inside `CRL::Administrator` and are not modelled. Only the order of the mutation and the regeneration calls is.
- Reading and rewinding the raw request body (lines 111-112, 193-194) is I/O. The body is a parameter.
- Dafny strings hold only valid characters. A `dNSNames` entry that is not valid in its encoding, such as `%FF` decoded into a UTF-8 string, makes `strip` (lines 146, 231) raise `ArgumentError` before anything is signed. The model's `IssueCertificate` and `IssueP12` return `Ok` for every entry, so this failure is not modelled.
- A parameter present with a nil value, such as a bare `ca` in the query string, passes the `has_key?` guards of the issuance routes (lines 117-126, 199-211). It then fails with "CA not found", and a nil `profile` or `validityPeriod` even reaches the converter or `build_and_enforce`. The revocation routes' `if not ca` and `if not serial` (lines 280-288, 306-314) treat the same input as absent. The model's `Option<string>` does not tell a nil value from a missing key, so it models every present parameter as a string.
- A parameter value of an unexpected Ruby type, such as a hash where a string is expected, would raise `NoMethodError` in the code. The model types every parameter as a string or a list of strings.
- Concurrency is out of scope: shared CRL state across requests, and concurrent requests writing the fixed `output.p12`.
- r509's `GeneralNames` is modelled only as the list that `create_item` appends to. Its ASN.1 encoding is not modelled.
