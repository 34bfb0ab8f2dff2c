/** The supplier compliance gate of orders and receipts (backend/internal/supplychain/compliance.go). */
module Compliance {
  import opened Wrappers
  import opened Tables

  datatype ComplianceError = CertificateRequired | CertificateInvalid | CertificateExpired | SupplierInactive

  datatype CertificateState = REVOKED_STATE | NOT_YET_VALID | EXPIRED | EXPIRING_SOON | VALID

  /** Dates are whole UTC days, both ends included. */
  function CertificateStatus(cert: Certificate, day: int): (r: CertificateState)
    ensures r in {VALID, EXPIRING_SOON} <==> !cert.revoked && cert.validFrom <= day && day <= cert.expiry
    ensures r == EXPIRING_SOON ==> cert.expiry - 30 <= day <= cert.expiry
    ensures r == VALID ==> day < cert.expiry - 30
    ensures r == REVOKED_STATE <==> cert.revoked
    ensures r == NOT_YET_VALID <==> !cert.revoked && day < cert.validFrom
  {
    if cert.revoked then REVOKED_STATE
    else if cert.validFrom > day then NOT_YET_VALID
    else if cert.expiry < day then EXPIRED
    else if cert.expiry <= day + 30 then EXPIRING_SOON
    else VALID
  }

  /** What strings.TrimSpace removes. */
  predicate IsSpace(c: char) {
    c in {' ', '\t', '\n', '\r', '\U{B}', '\U{C}', '\U{85}', '\U{A0}', '\U{1680}', '\U{2028}', '\U{2029}', '\U{202F}', '\U{205F}', '\U{3000}'}
    || '\U{2000}' <= c <= '\U{200A}'
  }

  predicate Blank(s: string) {
    forall c <- s :: IsSpace(c)
  }

  predicate InForce(cert: Certificate, day: int) {
    !cert.revoked && cert.validFrom <= day <= cert.expiry
  }

  /** A certificate that vouches for this supplier today. */
  predicate VouchesFor(cert: Certificate, supplier: nat, required: seq<string>, day: int) {
    cert.supplier == supplier && !Blank(cert.scope) && cert.certType in required && InForce(cert, day)
  }

  predicate Compliant(supplier: nat, required: seq<string>, cert: Option<Certificate>, day: int) {
    cert.Some? && VouchesFor(cert.value, supplier, required, day)
  }

  /** Fitting but not in force by date, as opposed to unfit. */
  predicate OutOfDate(cert: Certificate, supplier: nat, required: seq<string>, day: int) {
    VouchesFor(cert.(validFrom := day, expiry := day), supplier, required, day) && !InForce(cert, day)
  }

  /** Why a certificate is not good enough, when it is not. */
  function RefusalReason(supplier: nat, required: seq<string>, cert: Option<Certificate>, day: int): ComplianceError {
    if cert.None? then CertificateRequired
    else if OutOfDate(cert.value, supplier, required, day) then CertificateExpired
    else CertificateInvalid
  }

  /** Strict mode blocks whatever is not compliant; otherwise it is only recorded as a warning. */
  method EvaluateCompliance(supplier: nat, policy: CompliancePolicy, cert: Option<Certificate>, day: int)
    returns (r: Result<ComplianceOutcome, ComplianceError>)
    ensures r == Ok(ACCEPTED) <==> Compliant(supplier, policy.required, cert, day)
    ensures r == Ok(WARNING) <==> !Compliant(supplier, policy.required, cert, day) && !policy.strict
    ensures r.Err? ==> r.error == RefusalReason(supplier, policy.required, cert, day)
  {
    var failure: Option<ComplianceError> := None;
    if cert.None? {
      failure := Some(CertificateRequired);
    } else {
      var c := cert.value;
      var status := CertificateStatus(c, day);
      var allowed := false;
      for i := 0 to |policy.required|
        invariant allowed <==> c.certType in policy.required[..i]
      {
        allowed := allowed || policy.required[i] == c.certType;
      }
      assert policy.required[..|policy.required|] == policy.required;
      if c.supplier != supplier || Blank(c.scope) || !allowed {
        failure := Some(CertificateInvalid);
      } else if status == REVOKED_STATE {
        failure := Some(CertificateInvalid);
      } else if status == NOT_YET_VALID || status == EXPIRED {
        failure := Some(CertificateExpired);
      }
    }
    if failure.Some? {
      if policy.strict { return Err(failure.value); }
      return Ok(WARNING);
    }
    return Ok(ACCEPTED);
  }

  /** The certificate an order names, if it may be used for this supplier at all. */
  function CertificateOf(s: Store, supplier: nat, cert: Option<nat>): Result<Option<Certificate>, ComplianceError> {
    if supplier !in s.suppliers then Err(CertificateInvalid)
    else if !s.suppliers[supplier].isActive then Err(SupplierInactive)
    else if cert.None? then Ok(None)
    else if cert.value !in s.certificates || s.certificates[cert.value].supplier != supplier then Err(CertificateInvalid)
    else Ok(Some(s.certificates[cert.value]))
  }

  /** The gate passes this order, with this outcome on record. */
  predicate Passes(s: Store, supplier: nat, cert: Option<nat>, day: int, outcome: ComplianceOutcome) {
    var found := CertificateOf(s, supplier, cert);
    found.Ok? && var ok := Compliant(supplier, s.policy.required, found.value, day);
                 outcome == (if ok then ACCEPTED else WARNING) && (ok || !s.policy.strict)
  }

  predicate Blocked(s: Store, supplier: nat, cert: Option<nat>, day: int) {
    !Passes(s, supplier, cert, day, ACCEPTED) && !Passes(s, supplier, cert, day, WARNING)
  }

  /** Why the gate blocks, when it does: no such supplier, an inactive one, a foreign certificate, or one not good enough. */
  function BlockReason(s: Store, supplier: nat, cert: Option<nat>, day: int): ComplianceError {
    match CertificateOf(s, supplier, cert)
    case Err(e) => e
    case Ok(found) => RefusalReason(supplier, s.policy.required, found, day)
  }

  /** Under the locks: configuration, supplier row, certificate row. A foreign certificate is refused in warning mode too. */
  method CheckCompliance(s: Store, supplier: nat, cert: Option<nat>, day: int) returns (r: Result<ComplianceOutcome, ComplianceError>)
    ensures r.Ok? <==> !Blocked(s, supplier, cert, day)
    ensures r.Ok? ==> Passes(s, supplier, cert, day, r.value)
    ensures r.Err? ==> r.error == BlockReason(s, supplier, cert, day)
  {
    if supplier !in s.suppliers { return Err(CertificateInvalid); }
    if !s.suppliers[supplier].isActive { return Err(SupplierInactive); }
    var found: Option<Certificate> := None;
    if cert.Some? {
      if cert.value !in s.certificates { return Err(CertificateInvalid); }
      if s.certificates[cert.value].supplier != supplier { return Err(CertificateInvalid); }
      found := Some(s.certificates[cert.value]);
    }
    assert CertificateOf(s, supplier, cert) == Ok(found);
    r := EvaluateCompliance(supplier, s.policy, found, day);
    assert r.Ok? ==> r.value.ACCEPTED? || r.value.WARNING?;
  }

  /** In strict mode whatever passes has an active supplier and its own certificate, of a required type and in force. */
  lemma StrictMeansVouched(s: Store, supplier: nat, cert: Option<nat>, day: int, outcome: ComplianceOutcome)
    requires s.policy.strict && Passes(s, supplier, cert, day, outcome)
    ensures outcome == ACCEPTED && supplier in s.suppliers && s.suppliers[supplier].isActive
    ensures cert.Some? && cert.value in s.certificates && VouchesFor(s.certificates[cert.value], supplier, s.policy.required, day)
  {
  }

  // ---------- the answers in plain terms ----------

  /** Only white space is blank: the control and space characters by their code points, and nothing a reader would see. */
  lemma BlankText(s: string)
    ensures Blank(s) <==>
              forall c <- s :: var n := c as int;
                               || 0x09 <= n <= 0x0D || n in {0x20, 0x85, 0xA0, 0x1680, 0x2028, 0x2029, 0x202F, 0x205F, 0x3000}
                               || 0x2000 <= n <= 0x200A
  {
  }

  /** A certificate row that is good for this policy on this day: a scope, a required type, not revoked, and a day from its
      first to its last, both included. */
  predicate GoodOn(c: Certificate, required: seq<string>, day: int) {
    !Blank(c.scope) && c.certType in required && !c.revoked && c.validFrom <= day && day <= c.expiry
  }

  /** The gate, row by row: an unknown or inactive supplier and a foreign certificate always block; a good certificate is
      accepted; anything else is a warning, or in strict mode blocks with the reason. */
  lemma {:induction false} GateAnswers(s: Store, supplier: nat, cert: Option<nat>, day: int)
    ensures supplier !in s.suppliers ==> Blocked(s, supplier, cert, day) && BlockReason(s, supplier, cert, day) == CertificateInvalid
    ensures supplier in s.suppliers && !s.suppliers[supplier].isActive ==>
              Blocked(s, supplier, cert, day) && BlockReason(s, supplier, cert, day) == SupplierInactive
    ensures supplier in s.suppliers && s.suppliers[supplier].isActive && cert.Some? && (cert.value in s.certificates ==> s.certificates[cert.value].supplier != supplier) ==>
              Blocked(s, supplier, cert, day) && BlockReason(s, supplier, cert, day) == CertificateInvalid
    ensures supplier in s.suppliers && s.suppliers[supplier].isActive && cert.None? ==>
              if s.policy.strict then Blocked(s, supplier, cert, day) && BlockReason(s, supplier, cert, day) == CertificateRequired
              else Passes(s, supplier, cert, day, WARNING) && !Passes(s, supplier, cert, day, ACCEPTED)
    ensures supplier in s.suppliers && s.suppliers[supplier].isActive && cert.Some? && cert.value in s.certificates && s.certificates[cert.value].supplier == supplier ==>
              var c := s.certificates[cert.value];
              if GoodOn(c, s.policy.required, day) then Passes(s, supplier, cert, day, ACCEPTED) && !Passes(s, supplier, cert, day, WARNING)
              else if !s.policy.strict then Passes(s, supplier, cert, day, WARNING) && !Passes(s, supplier, cert, day, ACCEPTED)
              else && Blocked(s, supplier, cert, day)
                   && BlockReason(s, supplier, cert, day) ==
                      if Blank(c.scope) || c.certType !in s.policy.required || c.revoked then CertificateInvalid else CertificateExpired
  {
  }
}
