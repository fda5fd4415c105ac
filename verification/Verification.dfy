/**
 Projecting a list of signed evidence to a verification tier.  Cryptography and
 field validation are parameters; the replay guard binds each run nonce to the
 first evidence ID that presents it.
 */
module Verification {
  import opened Base
  import opened VerificationSubject

  datatype Tier = Unverified | ContractTested | LiveVerified

  datatype Signature = Signature(algorithm: string, purpose: string, issuer: string, keyID: string, value: string)

  datatype Authorization = Authorization(
    authorizationID: string, subject: Subject, tenant: string, gateway: string, gatewayKey: string, correlation: string,
    nonce: string, budget: string, credential: string, issuedAt: int, expiresAt: int, signature: Signature)

  datatype Receipt = Receipt(
    authorizationID: string, subject: Subject, tenant: string, gateway: string, correlation: string,
    nonce: string, budget: string, credential: string, issuedAt: int, signature: Signature)

  datatype Evidence = Evidence(
    id: string, tier: Tier, passed: bool, epoch: nat, issuedAt: int, expiresAt: int, subject: Subject,
    authorization: Option<Authorization>, receipt: Option<Receipt>, signature: Signature)

  /** The scope the caller expects evidence for; empty strings when no live run is expected. */
  datatype Expectation = Expectation(
    subject: Subject, tenant: string, gateway: string, gatewayKey: string, correlation: string,
    authorizationID: string, nonce: string, budget: string, credential: string)

  /** Signature checks, each for a purpose, of a signature over the signed form of a document. */
  datatype Trust = Trust(
    evidence: (string, Signature, Evidence) -> bool,
    authorization: (string, Signature, Authorization) -> bool,
    receipt: (string, Signature, Receipt) -> bool)

  datatype Policy = Policy(trust: Option<Trust>, epoch: nat, revoked: seq<string>, superseded: seq<string>)

  /** The field validators of evidence and expectations. */
  datatype Rules = Rules(evidence: Evidence -> bool, expectation: Expectation -> bool)

  /** Everything an evaluation reads besides the list and the guard. */
  datatype Context = Context(rules: Rules, expected: Expectation, policy: Policy, now: int)

  datatype Projection = Projection(tier: Tier, evidenceID: string)

  const NOTHING: Projection := Projection(Unverified, "")

  function CanonicalAuthorization(a: Authorization): Authorization {
    a.(subject := Canonical(a.subject))
  }

  function CanonicalReceipt(r: Receipt): Receipt {
    r.(subject := Canonical(r.subject))
  }

  function CanonicalEvidence(e: Evidence): Evidence {
    e.(subject := Canonical(e.subject),
       authorization := if e.authorization.Some? then Some(CanonicalAuthorization(e.authorization.value)) else None,
       receipt := if e.receipt.Some? then Some(CanonicalReceipt(e.receipt.value)) else None)
  }

  /** A signature without its value, which is how a document signs its own metadata. */
  function Blanked(s: Signature): Signature {
    s.(value := "")
  }

  function SignedAuthorization(a: Authorization): Authorization {
    CanonicalAuthorization(a).(signature := Blanked(a.signature))
  }

  function SignedReceipt(r: Receipt): Receipt {
    CanonicalReceipt(r).(signature := Blanked(r.signature))
  }

  /** The signatures of the documents inside evidence are signed with their values. */
  function SignedEvidence(e: Evidence): Evidence {
    CanonicalEvidence(e).(signature := Blanked(e.signature))
  }

  const CONTRACT_PURPOSE: string := "contract-verification"
  const LIVE_PURPOSE: string := "live-verification"
  const AUTHORIZATION_PURPOSE: string := "live-run-authorization"
  const RECEIPT_PURPOSE: string := "live-run-receipt"

  function PurposeForTier(tier: Tier): string {
    if tier.LiveVerified? then LIVE_PURPOSE else CONTRACT_PURPOSE
  }

  predicate HasLiveScope(x: Expectation) {
    || x.tenant != "" || x.gateway != "" || x.gatewayKey != "" || x.correlation != ""
    || x.authorizationID != "" || x.nonce != "" || x.budget != "" || x.credential != ""
  }

  ghost predicate AuthorizationMatches(a: Authorization, x: Expectation) {
    && SameScope(a.subject, x.subject) && a.tenant == x.tenant && a.gateway == x.gateway && a.gatewayKey == x.gatewayKey
    && a.correlation == x.correlation && a.authorizationID == x.authorizationID && a.nonce == x.nonce
    && a.budget == x.budget && a.credential == x.credential
  }

  ghost predicate ReceiptMatches(r: Receipt, a: Authorization) {
    && r.authorizationID == a.authorizationID && SameScope(r.subject, a.subject) && r.tenant == a.tenant
    && r.gateway == a.gateway && r.signature.keyID == a.gatewayKey && r.correlation == a.correlation
    && r.nonce == a.nonce
    && r.budget == a.budget && r.credential == a.credential
  }

  /** The checks every tier needs. */
  ghost predicate Sound(c: Context, e: Evidence) {
    && c.policy.trust.Some?
    && c.rules.evidence(e) && e.tier != Unverified && e.passed && e.epoch == c.policy.epoch
    && e.issuedAt <= c.now < e.expiresAt && SameScope(e.subject, c.expected.subject)
    && e.id !in c.policy.revoked && e.id !in c.policy.superseded
    && c.policy.trust.value.evidence(PurposeForTier(e.tier), e.signature, SignedEvidence(e))
  }

  /** The further checks of a live run, all but the replay guard's. */
  ghost predicate Live(c: Context, e: Evidence) {
    && c.policy.trust.Some? && HasLiveScope(c.expected) && e.authorization.Some? && e.receipt.Some?
    && var a, r := e.authorization.value, e.receipt.value;
    && AuthorizationMatches(a, c.expected) && ReceiptMatches(r, a)
    && a.issuedAt <= c.now < a.expiresAt && r.issuedAt <= c.now
    && c.policy.trust.value.authorization(AUTHORIZATION_PURPOSE, a.signature, SignedAuthorization(a))
    && r.signature.issuer == r.gateway && c.policy.trust.value.receipt(RECEIPT_PURPOSE, r.signature, SignedReceipt(r))
  }

  /** A usable expectation and policy; without them nothing is evaluated. */
  predicate Ready(c: Context) {
    c.rules.expectation(c.expected) && c.policy.trust.Some? && c.policy.epoch != 0
  }

  // ---- The replay guard ------------------------------------------------------------------

  /** Which evidence ID each run nonce is bound to. */
  type Bindings = map<string, string>

  predicate Admits(g: Bindings, nonce: string, id: string) {
    nonce in g ==> g[nonce] == id
  }

  class ReplayGuard {
    var bound: Bindings

    constructor ()
      ensures bound == map[]
    {
      bound := map[];
    }

    method Accept(nonce: string, id: string) returns (ok: bool)
      modifies this
      ensures ok == Admits(old(bound), nonce, id)
      ensures bound == if ok then old(bound)[nonce := id] else old(bound)
    {
      if nonce in bound { return bound[nonce] == id; }
      bound := bound[nonce := id];
      return true;
    }
  }

  // ---- Evaluation ------------------------------------------------------------------------

  /** Whether a candidate counts, given what the guard has bound so far; `guarded` is whether there is a guard. */
  ghost predicate Applies(c: Context, e: Evidence, guarded: bool, g: Bindings) {
    Sound(c, e) && (e.tier.LiveVerified? ==> guarded && Live(c, e) && Admits(g, e.receipt.value.nonce, e.id))
  }

  ghost function Bind(c: Context, e: Evidence, guarded: bool, g: Bindings): Bindings {
    if Applies(c, e, guarded, g) && e.tier.LiveVerified? then g[e.receipt.value.nonce := e.id] else g
  }

  function Prefer(p: Projection, e: Evidence): Projection {
    if e.tier.LiveVerified? || p.tier.Unverified? then Projection(e.tier, e.id) else p
  }

  datatype Outcome = Outcome(projection: Projection, bound: Bindings)

  ghost function Advance(c: Context, e: Evidence, guarded: bool, o: Outcome): Outcome {
    var projection := if Applies(c, e, guarded, o.bound) then Prefer(o.projection, e) else o.projection;
    Outcome(projection, Bind(c, e, guarded, o.bound))
  }

  ghost function EvaluateFrom(c: Context, evidence: seq<Evidence>, guarded: bool, o: Outcome): Outcome
    decreases |evidence|
  {
    if evidence == [] then o else EvaluateFrom(c, evidence[1..], guarded, Advance(c, evidence[0], guarded, o))
  }

  ghost function Evaluate(c: Context, evidence: seq<Evidence>, guarded: bool, g: Bindings): Outcome {
    if Ready(c) then EvaluateFrom(c, evidence, guarded, Outcome(NOTHING, g)) else Outcome(NOTHING, g)
  }

  method Contains(values: seq<string>, wanted: string) returns (r: bool)
    ensures r <==> wanted in values
  {
    for i := 0 to |values|
      invariant wanted !in values[..i]
    {
      if values[i] == wanted { return true; }
    }
    return false;
  }

  /** The checks of every tier; a comparison of subjects sorts copies of both. */
  method ChecksSound(c: Context, e: Evidence) returns (ok: bool)
    requires c.policy.trust.Some?
    ensures ok <==> Sound(c, e)
  {
    hide SameScope, Canonical;
    if !c.rules.evidence(e) || e.tier == Unverified || !e.passed || e.epoch != c.policy.epoch || c.now < e.issuedAt
        || !(c.now < e.expiresAt) {
      return false;
    }
    var same := EqualSubject(e.subject, c.expected.subject);
    if !same { return false; }
    var revoked := Contains(c.policy.revoked, e.id);
    var superseded := Contains(c.policy.superseded, e.id);
    if revoked || superseded { return false; }
    return c.policy.trust.value.evidence(PurposeForTier(e.tier), e.signature, SignedEvidence(e));
  }

  method ChecksLive(c: Context, e: Evidence) returns (ok: bool)
    requires c.policy.trust.Some?
    ensures ok <==> Live(c, e)
  {
    hide SameScope, Canonical;
    if !HasLiveScope(c.expected) || e.authorization.None? || e.receipt.None? { return false; }
    var a, r, x := e.authorization.value, e.receipt.value, c.expected;
    var sameA := EqualSubject(a.subject, x.subject);
    var sameR := EqualSubject(r.subject, a.subject);
    if !sameA || a.tenant != x.tenant || a.gateway != x.gateway || a.gatewayKey != x.gatewayKey
       || a.correlation != x.correlation || a.authorizationID != x.authorizationID || a.nonce != x.nonce
       || a.budget != x.budget || a.credential != x.credential {
      return false;
    }
    if r.authorizationID != a.authorizationID || !sameR || r.tenant != a.tenant || r.gateway != a.gateway
       || r.signature.keyID != a.gatewayKey
       || r.correlation != a.correlation || r.nonce != a.nonce || r.budget != a.budget || r.credential != a.credential {
      return false;
    }
    if c.now < a.issuedAt || !(c.now < a.expiresAt) || c.now < r.issuedAt { return false; }
    if !c.policy.trust.value.authorization(AUTHORIZATION_PURPOSE, a.signature, SignedAuthorization(a)) { return false; }
    if r.signature.issuer != r.gateway { return false; }
    return c.policy.trust.value.receipt(RECEIPT_PURPOSE, r.signature, SignedReceipt(r));
  }

  ghost function Bound(guard: ReplayGuard?): Bindings
    reads guard
  {
    if guard == null then map[] else guard.bound
  }

  method VerificationApplies(c: Context, e: Evidence, guard: ReplayGuard?) returns (ok: bool)
    requires c.policy.trust.Some?
    modifies guard
    ensures ok == Applies(c, e, guard != null, old(Bound(guard)))
    ensures Bound(guard) == Bind(c, e, guard != null, old(Bound(guard)))
  {
    hide Sound, Live;
    ok := ChecksSound(c, e);
    if !ok || e.tier != LiveVerified { return; }
    if guard == null { return false; }
    ok := ChecksLive(c, e);
    if !ok { return; }
    LiveHasReceipt(c, e);
    ok := guard.Accept(e.receipt.value.nonce, e.id);
  }

  lemma LiveHasReceipt(c: Context, e: Evidence)
    requires Live(c, e)
    ensures e.receipt.Some? && e.receipt.value.nonce == c.expected.nonce
  {
  }

  method EvaluateVerification(c: Context, evidence: seq<Evidence>, guard: ReplayGuard?) returns (projection: Projection)
    modifies guard
    ensures Outcome(projection, Bound(guard)) == Evaluate(c, evidence, guard != null, old(Bound(guard)))
  {
    hide Applies, Bind;
    projection := NOTHING;
    if !c.rules.expectation(c.expected) || c.policy.trust.None? || c.policy.epoch == 0 { return; }
    ghost var target := Evaluate(c, evidence, guard != null, Bound(guard));
    for i := 0 to |evidence|
      invariant EvaluateFrom(c, evidence[i..], guard != null, Outcome(projection, Bound(guard))) == target
    {
      assert evidence[i..][1..] == evidence[i + 1..];
      var ok := VerificationApplies(c, evidence[i], guard);
      if ok {
        if evidence[i].tier == LiveVerified || projection.tier == Unverified {
          projection := Projection(evidence[i].tier, evidence[i].id);
        }
      }
    }
  }

  // ---- Results ---------------------------------------------------------------------------

  /** Some candidate passes every live check, the guard's as it stood before the evaluation included. */
  ghost predicate SomeLive(c: Context, evidence: seq<Evidence>, guarded: bool, g: Bindings) {
    exists i :: 0 <= i < |evidence| && evidence[i].tier.LiveVerified? && Applies(c, evidence[i], guarded, g)
  }

  ghost predicate SomeContract(c: Context, evidence: seq<Evidence>) {
    exists i :: 0 <= i < |evidence| && evidence[i].tier.ContractTested? && Sound(c, evidence[i])
  }

  lemma SplitFirst(c: Context, evidence: seq<Evidence>, guarded: bool, g: Bindings)
    requires evidence != []
    ensures SomeLive(c, evidence, guarded, g) <==>
              (evidence[0].tier.LiveVerified? && Applies(c, evidence[0], guarded, g))
                  || SomeLive(c, evidence[1..], guarded, g)
    ensures SomeContract(c, evidence) <==>
              (evidence[0].tier.ContractTested? && Sound(c, evidence[0])) || SomeContract(c, evidence[1..])
  {
    hide Sound, Applies;
    var rest := evidence[1..];
    assert forall i :: 0 <= i < |rest| ==> rest[i] == evidence[i + 1];
    if SomeLive(c, evidence, guarded, g) {
      var i :| 0 <= i < |evidence| && evidence[i].tier.LiveVerified? && Applies(c, evidence[i], guarded, g);
      assert i == 0 || rest[i - 1] == evidence[i];
    }
    if SomeContract(c, evidence) {
      var i :| 0 <= i < |evidence| && evidence[i].tier.ContractTested? && Sound(c, evidence[i]);
      assert i == 0 || rest[i - 1] == evidence[i];
    }
  }

  /** What one candidate does to the tier; the guard changes only when the tier becomes live. */
  lemma AdvanceTier(c: Context, e: Evidence, guarded: bool, o: Outcome)
    ensures var n := Advance(c, e, guarded, o);
      var live := e.tier.LiveVerified? && Applies(c, e, guarded, o.bound);
      var contract := e.tier.ContractTested? && Sound(c, e);
      && (n.projection.tier.LiveVerified? <==> o.projection.tier.LiveVerified? || live)
      && (n.projection.tier.Unverified? <==> o.projection.tier.Unverified? && !live && !contract)
      && (!live ==> n.bound == o.bound)
  {
    hide Live, SameScope, SignedEvidence;
  }

  lemma {:induction false} FromMeans(c: Context, evidence: seq<Evidence>, guarded: bool, o: Outcome)
    ensures var r := EvaluateFrom(c, evidence, guarded, o);
      && (r.projection.tier.LiveVerified? <==>
            o.projection.tier.LiveVerified? || SomeLive(c, evidence, guarded, o.bound))
      && (r.projection.tier.Unverified? <==>
            o.projection.tier.Unverified? && !SomeLive(c, evidence, guarded, o.bound) && !SomeContract(c, evidence))
    decreases |evidence|
  {
    if evidence != [] {
      SplitFirst(c, evidence, guarded, o.bound);
      AdvanceTier(c, evidence[0], guarded, o);
      hide SomeLive, SomeContract, Advance, Applies, Sound;
      FromMeans(c, evidence[1..], guarded, Advance(c, evidence[0], guarded, o));
    }
  }

  /** The tier, stated without the loop. */
  lemma TierIsExact(c: Context, evidence: seq<Evidence>, guarded: bool, g: Bindings)
    ensures var tier := Evaluate(c, evidence, guarded, g).projection.tier;
      var ready := c.rules.expectation(c.expected) && c.policy.trust.Some? && c.policy.epoch > 0;
      && (tier.LiveVerified? <==> ready && SomeLive(c, evidence, guarded, g))
      && (tier.ContractTested? <==> ready && !SomeLive(c, evidence, guarded, g) && SomeContract(c, evidence))
  {
    hide Applies, Sound, EvaluateFrom;
    FromMeans(c, evidence, guarded, Outcome(NOTHING, g));
  }

  /** Candidate i passes the common checks at the contract tier, and no earlier one does. */
  ghost predicate FirstContract(c: Context, evidence: seq<Evidence>, i: nat) {
    && i < |evidence| && evidence[i].tier.ContractTested? && Sound(c, evidence[i])
    && forall j :: 0 <= j < i ==> !(evidence[j].tier.ContractTested? && Sound(c, evidence[j]))
  }

  /** A contract-tested projection names the first candidate of the list that passes. */
  lemma ContractEvidenceIsFirst(c: Context, evidence: seq<Evidence>, guarded: bool, g: Bindings, i: nat)
    requires FirstContract(c, evidence, i) && Evaluate(c, evidence, guarded, g).projection.tier.ContractTested?
    ensures Evaluate(c, evidence, guarded, g).projection.evidenceID == evidence[i].id
  {
    FirstIsNamed(c, evidence, guarded, Outcome(NOTHING, g), i);
  }

  lemma {:induction false} FirstIsNamed(c: Context, evidence: seq<Evidence>, guarded: bool, o: Outcome, i: nat)
    requires FirstContract(c, evidence, i) && o.projection.tier.Unverified?
    requires EvaluateFrom(c, evidence, guarded, o).projection.tier.ContractTested?
    ensures EvaluateFrom(c, evidence, guarded, o).projection.evidenceID == evidence[i].id
    decreases |evidence|
  {
    var rest, next := evidence[1..], Advance(c, evidence[0], guarded, o);
    AdvanceTier(c, evidence[0], guarded, o);
    FromMeans(c, rest, guarded, next);
    if i == 0 {
      assert next.projection == Projection(evidence[0].tier, evidence[0].id);
      hide Sound, Applies, Advance, SomeLive, SomeContract;
      ContractStays(c, rest, guarded, next);
    } else {
      assert forall j :: 0 <= j < |rest| ==> rest[j] == evidence[j + 1];
      hide Sound, Applies, Advance, SomeLive, SomeContract;
      assert FirstContract(c, rest, i - 1);
      FirstIsNamed(c, rest, guarded, next, i - 1);
    }
  }

  /** Once named, only live evidence takes its place. */
  lemma {:induction false} ContractStays(c: Context, evidence: seq<Evidence>, guarded: bool, o: Outcome)
    requires o.projection.tier.ContractTested?
    requires EvaluateFrom(c, evidence, guarded, o).projection.tier.ContractTested?
    ensures EvaluateFrom(c, evidence, guarded, o).projection == o.projection
    decreases |evidence|
  {
    if evidence != [] {
      var next := Advance(c, evidence[0], guarded, o);
      AdvanceTier(c, evidence[0], guarded, o);
      FromMeans(c, evidence[1..], guarded, next);
      assert next.projection == o.projection || next.projection.tier.LiveVerified?;
      hide Sound, Applies, Advance, SomeLive, SomeContract;
      ContractStays(c, evidence[1..], guarded, next);
    }
  }

  /** No order of the list, and no repetition in it, changes the tier. */
  lemma TierIgnoresOrder(c: Context, evidence: seq<Evidence>, other: seq<Evidence>, guarded: bool, g: Bindings)
    requires forall e :: e in evidence <==> e in other
    ensures Evaluate(c, evidence, guarded, g).projection.tier == Evaluate(c, other, guarded, g).projection.tier
  {
    hide Evaluate, Applies, Sound;
    TierIsExact(c, evidence, guarded, g);
    TierIsExact(c, other, guarded, g);
    SameMembers(c, evidence, other, guarded, g);
    SameMembers(c, other, evidence, guarded, g);
  }

  lemma SameMembers(c: Context, evidence: seq<Evidence>, other: seq<Evidence>, guarded: bool, g: Bindings)
    requires forall e :: e in evidence ==> e in other
    ensures SomeLive(c, evidence, guarded, g) ==> SomeLive(c, other, guarded, g)
    ensures SomeContract(c, evidence) ==> SomeContract(c, other)
  {
    hide Applies, Sound;
    if SomeLive(c, evidence, guarded, g) {
      var i :| 0 <= i < |evidence| && evidence[i].tier.LiveVerified? && Applies(c, evidence[i], guarded, g);
      assert evidence[i] in other;
      var j :| 0 <= j < |other| && other[j] == evidence[i];
    }
    if SomeContract(c, evidence) {
      var i :| 0 <= i < |evidence| && evidence[i].tier.ContractTested? && Sound(c, evidence[i]);
      assert evidence[i] in other;
      var j :| 0 <= j < |other| && other[j] == evidence[i];
    }
  }

  lemma PermutedTier(c: Context, evidence: seq<Evidence>, other: seq<Evidence>, guarded: bool, g: Bindings)
    requires multiset(evidence) == multiset(other)
    ensures Evaluate(c, evidence, guarded, g).projection.tier == Evaluate(c, other, guarded, g).projection.tier
  {
    hide Evaluate;
    forall e ensures e in evidence <==> e in other {
      assert e in evidence <==> e in multiset(evidence);
      assert e in other <==> e in multiset(other);
    }
    TierIgnoresOrder(c, evidence, other, guarded, g);
  }

  /** Malformed, without a tier, revoked, superseded, failed, from another epoch, outside its time, about another
      subject, or not signed for its tier. */
  ghost predicate Unusable(c: Context, e: Evidence) {
    || !c.rules.evidence(e) || e.tier.Unverified?
    || e.id in c.policy.revoked || e.id in c.policy.superseded || !e.passed || e.epoch != c.policy.epoch
    || c.now < e.issuedAt || c.now >= e.expiresAt || !SameScope(e.subject, c.expected.subject)
    || (c.policy.trust.Some? &&
        var purpose := if e.tier.LiveVerified? then "live-verification" else "contract-verification";
        !c.policy.trust.value.evidence(purpose, e.signature, SignedEvidence(e)))
  }

  /** What identifies a live run. */
  datatype Scope = Scope(
    tenant: string, gateway: string, gatewayKey: string, correlation: string, authorizationID: string, nonce: string,
    budget: string, credential: string)

  function ExpectedScope(x: Expectation): Scope {
    Scope(x.tenant, x.gateway, x.gatewayKey, x.correlation, x.authorizationID, x.nonce, x.budget, x.credential)
  }

  function AuthorizedScope(a: Authorization): Scope {
    Scope(a.tenant, a.gateway, a.gatewayKey, a.correlation, a.authorizationID, a.nonce, a.budget, a.credential)
  }

  function ReceiptScope(r: Receipt): Scope {
    Scope(r.tenant, r.gateway, r.signature.keyID, r.correlation, r.authorizationID, r.nonce, r.budget, r.credential)
  }

  /** For a live run also: none expected, no authorization or receipt, one of another run, about another subject,
      outside its time, or not signed as it should be. */
  ghost predicate UnusableLive(c: Context, e: Evidence) {
    e.tier.LiveVerified? &&
    (|| ExpectedScope(c.expected) == Scope("", "", "", "", "", "", "", "")
     || e.authorization.None? || e.receipt.None?
     || UnusableRun(c, e.authorization.value, e.receipt.value))
  }

  ghost predicate UnusableRun(c: Context, a: Authorization, r: Receipt) {
    || AuthorizedScope(a) != ExpectedScope(c.expected) || ReceiptScope(r) != ExpectedScope(c.expected)
    || !SameScope(a.subject, c.expected.subject) || !SameScope(r.subject, a.subject)
    || c.now < a.issuedAt || c.now >= a.expiresAt || c.now < r.issuedAt || r.signature.issuer != r.gateway
    || (c.policy.trust.Some? &&
        (|| !c.policy.trust.value.authorization("live-run-authorization", a.signature, SignedAuthorization(a))
         || !c.policy.trust.value.receipt("live-run-receipt", r.signature, SignedReceipt(r))))
  }

  /** Such evidence counts for as much as if it were not in the list. */
  lemma UnusableIsAbsent(c: Context, evidence: seq<Evidence>, guarded: bool, g: Bindings, i: nat)
    requires i < |evidence| && (Unusable(c, evidence[i]) || UnusableLive(c, evidence[i]))
    ensures var rest := evidence[..i] + evidence[i + 1..];
      Evaluate(c, evidence, guarded, g).projection.tier == Evaluate(c, rest, guarded, g).projection.tier
  {
    hide Evaluate, Sound, Applies, Unusable, UnusableLive;
    var rest := evidence[..i] + evidence[i + 1..];
    TierIsExact(c, evidence, guarded, g);
    TierIsExact(c, rest, guarded, g);
    NeverCounts(c, evidence[i], guarded, g);
    assert evidence == evidence[..i] + [evidence[i]] + evidence[i + 1..];
    SameMembers(c, rest, evidence, guarded, g);
    AllButOne(c, evidence, rest, evidence[i], guarded, g);
  }

  lemma AllButOne(c: Context, evidence: seq<Evidence>, rest: seq<Evidence>, x: Evidence, guarded: bool, g: Bindings)
    requires forall e :: e in evidence ==> e == x || e in rest
    requires !(x.tier.LiveVerified? && Applies(c, x, guarded, g)) && !(x.tier.ContractTested? && Sound(c, x))
    ensures SomeLive(c, evidence, guarded, g) ==> SomeLive(c, rest, guarded, g)
    ensures SomeContract(c, evidence) ==> SomeContract(c, rest)
  {
    hide Applies, Sound;
    if SomeLive(c, evidence, guarded, g) {
      var i :| 0 <= i < |evidence| && evidence[i].tier.LiveVerified? && Applies(c, evidence[i], guarded, g);
      assert evidence[i] in rest;
      var j :| 0 <= j < |rest| && rest[j] == evidence[i];
    }
    if SomeContract(c, evidence) {
      var i :| 0 <= i < |evidence| && evidence[i].tier.ContractTested? && Sound(c, evidence[i]);
      assert evidence[i] in rest;
      var j :| 0 <= j < |rest| && rest[j] == evidence[i];
    }
  }

  lemma NeverCounts(c: Context, e: Evidence, guarded: bool, g: Bindings)
    requires Unusable(c, e) || UnusableLive(c, e)
    ensures !(e.tier.LiveVerified? && Applies(c, e, guarded, g)) && !(e.tier.ContractTested? && Sound(c, e))
  {
    hide Unusable, UnusableLive, Live;
    if c.policy.trust.Some? {
      UsableIsSound(c, e);
      hide Sound;
    }
  }

  /** And any other evidence counts, wherever it stands: contract-tested at least, or live if the guard has its nonce
      unbound or bound to it. */
  lemma UsableIsCounted(c: Context, evidence: seq<Evidence>, guarded: bool, g: Bindings, i: nat)
    requires c.rules.expectation(c.expected) && c.policy.trust.Some? && c.policy.epoch > 0
    requires i < |evidence| && !Unusable(c, evidence[i]) && !UnusableLive(c, evidence[i])
    ensures var e, tier := evidence[i], Evaluate(c, evidence, guarded, g).projection.tier;
      && (e.tier.ContractTested? ==> !tier.Unverified?)
      && (e.tier.LiveVerified? && guarded && (c.expected.nonce in g ==> g[c.expected.nonce] == e.id) ==>
            tier.LiveVerified?)
  {
    TierIsExact(c, evidence, guarded, g);
    UsableIsSound(c, evidence[i]);
    hide Evaluate, Sound, Live, Unusable, UnusableLive;
    if Live(c, evidence[i]) { LiveHasReceipt(c, evidence[i]); }
  }

  lemma UsableIsSound(c: Context, e: Evidence)
    requires c.policy.trust.Some?
    ensures !Unusable(c, e) <==> Sound(c, e)
    ensures e.tier.LiveVerified? ==> (!UnusableLive(c, e) <==> Live(c, e))
    ensures UnusableLive(c, e) ==> e.tier.LiveVerified?
  {
    hide SameScope, SignedEvidence, SignedAuthorization, SignedReceipt;
  }

  /** Bindings are added and never changed. */
  ghost predicate Extends(g: Bindings, g': Bindings) {
    forall k :: k in g ==> k in g' && g'[k] == g[k]
  }

  lemma ExtendsTransitive(a: Bindings, b: Bindings, c: Bindings)
    requires Extends(a, b) && Extends(b, c)
    ensures Extends(a, c)
  {
  }

  ghost predicate NamesBound(c: Context, o: Outcome) {
    o.projection.tier.LiveVerified? ==>
        c.expected.nonce in o.bound && o.bound[c.expected.nonce] == o.projection.evidenceID
  }

  lemma AdvanceMeans(c: Context, e: Evidence, guarded: bool, o: Outcome)
    ensures Extends(o.bound, Advance(c, e, guarded, o).bound)
    ensures NamesBound(c, o) ==> NamesBound(c, Advance(c, e, guarded, o))
  {
    BindExtends(c, e, guarded, o.bound);
    BindBinds(c, e, guarded, o.bound);
    hide Bind, Applies;
  }

  lemma BindExtends(c: Context, e: Evidence, guarded: bool, g: Bindings)
    ensures Extends(g, Bind(c, e, guarded, g))
  {
    hide Live, Sound;
  }

  lemma BindBinds(c: Context, e: Evidence, guarded: bool, g: Bindings)
    ensures var g' := Bind(c, e, guarded, g);
      if e.tier.LiveVerified? && Applies(c, e, guarded, g)
          then c.expected.nonce in g' && g'[c.expected.nonce] == e.id else g' == g
  {
    hide Sound;
    if Live(c, e) { LiveHasReceipt(c, e); }
    hide Live;
  }

  lemma {:induction false} FromNamesBound(c: Context, evidence: seq<Evidence>, guarded: bool, o: Outcome)
    requires NamesBound(c, o)
    ensures NamesBound(c, EvaluateFrom(c, evidence, guarded, o))
    decreases |evidence|
  {
    hide Advance, NamesBound;
    if evidence != [] {
      AdvanceMeans(c, evidence[0], guarded, o);
      FromNamesBound(c, evidence[1..], guarded, Advance(c, evidence[0], guarded, o));
    }
  }

  /** A live projection names the evidence its run nonce is bound to from then on. */
  lemma LiveEvidenceIsBound(c: Context, evidence: seq<Evidence>, guarded: bool, g: Bindings)
    ensures NamesBound(c, Evaluate(c, evidence, guarded, g))
  {
    FromNamesBound(c, evidence, guarded, Outcome(NOTHING, g));
  }

  lemma {:induction false} FromExtends(c: Context, evidence: seq<Evidence>, guarded: bool, o: Outcome)
    ensures Extends(o.bound, EvaluateFrom(c, evidence, guarded, o).bound)
    decreases |evidence|
  {
    hide Advance, Extends;
    if evidence == [] {
      ExtendsReflexive(o.bound);
    } else {
      var next := Advance(c, evidence[0], guarded, o);
      AdvanceMeans(c, evidence[0], guarded, o);
      FromExtends(c, evidence[1..], guarded, next);
      ExtendsTransitive(o.bound, next.bound, EvaluateFrom(c, evidence[1..], guarded, next).bound);
    }
  }

  lemma ExtendsReflexive(g: Bindings)
    ensures Extends(g, g)
  {
  }

  /** Under any bindings that extend those it left, a candidate is judged as before and binds nothing new. */
  lemma AdvanceAgain(c: Context, e: Evidence, guarded: bool, o: Outcome, g: Bindings)
    requires Extends(Advance(c, e, guarded, o).bound, g)
    ensures Advance(c, e, guarded, o.(bound := g)) == Advance(c, e, guarded, o).(bound := g)
  {
    AdvanceMeans(c, e, guarded, o);
    hide Sound;
    if Live(c, e) { LiveHasReceipt(c, e); }
    hide Live;
    var n := c.expected.nonce;
    if e.tier.LiveVerified? && Applies(c, e, guarded, o.bound) {
      assert n in g && g[n] == e.id;
      assert g[n := e.id] == g;
    }
  }

  lemma {:induction false} FromAgain(c: Context, evidence: seq<Evidence>, guarded: bool, o: Outcome)
    ensures var r := EvaluateFrom(c, evidence, guarded, o);
      EvaluateFrom(c, evidence, guarded, o.(bound := r.bound)) == r
    decreases |evidence|
  {
    hide Advance, Extends;
    if evidence != [] {
      var next := Advance(c, evidence[0], guarded, o);
      FromExtends(c, evidence[1..], guarded, next);
      AdvanceAgain(c, evidence[0], guarded, o, EvaluateFrom(c, evidence, guarded, o).bound);
      FromAgain(c, evidence[1..], guarded, next);
    }
  }

  /** Evaluating the same list again under the guard it left gives the same projection and binds nothing more. */
  lemma ReevaluationIsStable(c: Context, evidence: seq<Evidence>, guarded: bool, g: Bindings)
    ensures var r := Evaluate(c, evidence, guarded, g); Evaluate(c, evidence, guarded, r.bound) == r
  {
    hide EvaluateFrom;
    FromAgain(c, evidence, guarded, Outcome(NOTHING, g));
  }

  // ---- Many evaluations sharing one guard ------------------------------------------------

  /** Live evidence as an evaluation accepts it: run nonce and evidence ID. */
  datatype Acceptance = Acceptance(nonce: string, id: string)

  ghost function AcceptedNow(c: Context, e: Evidence, g: Bindings): seq<Acceptance> {
    if Applies(c, e, true, g) && e.tier.LiveVerified? then [Acceptance(e.receipt.value.nonce, e.id)] else []
  }

  ghost function Accepted(c: Context, evidence: seq<Evidence>, g: Bindings): seq<Acceptance>
    decreases |evidence|
  {
    if evidence == [] then []
    else AcceptedNow(c, evidence[0], g) + Accepted(c, evidence[1..], Bind(c, evidence[0], true, g))
  }

  datatype Request = Request(context: Context, evidence: seq<Evidence>)

  ghost function Serve(requests: seq<Request>, g: Bindings): Bindings
    decreases |requests|
  {
    if requests == [] then g
    else Serve(requests[1..], Evaluate(requests[0].context, requests[0].evidence, true, g).bound)
  }

  ghost function EverAccepted(requests: seq<Request>, g: Bindings): seq<Acceptance>
    decreases |requests|
  {
    if requests == [] then []
    else
      (if Ready(requests[0].context) then Accepted(requests[0].context, requests[0].evidence, g) else [])
      + EverAccepted(requests[1..], Evaluate(requests[0].context, requests[0].evidence, true, g).bound)
  }

  ghost predicate AllBound(acceptances: seq<Acceptance>, g: Bindings) {
    forall i :: 0 <= i < |acceptances| ==> acceptances[i].nonce in g && g[acceptances[i].nonce] == acceptances[i].id
  }

  lemma AcceptedNowIsBound(c: Context, e: Evidence, g: Bindings)
    ensures AllBound(AcceptedNow(c, e, g), Bind(c, e, true, g))
  {
    hide Live, Sound;
  }

  lemma BoundStays(acceptances: seq<Acceptance>, more: seq<Acceptance>, g: Bindings, g': Bindings)
    requires AllBound(acceptances, g) && Extends(g, g') && AllBound(more, g')
    ensures AllBound(acceptances + more, g')
  {
  }

  lemma {:induction false} AcceptedAreBound(c: Context, evidence: seq<Evidence>, o: Outcome)
    ensures var after := EvaluateFrom(c, evidence, true, o).bound;
      Extends(o.bound, after) && AllBound(Accepted(c, evidence, o.bound), after)
    decreases |evidence|
  {
    if evidence != [] {
      var e, rest := evidence[0], evidence[1..];
      var next := Advance(c, e, true, o);
      var after := EvaluateFrom(c, rest, true, next).bound;
      assert next.bound == Bind(c, e, true, o.bound);
      hide Advance, Bind, AcceptedNow, AllBound, Extends;
      AdvanceMeans(c, e, true, o);
      AcceptedAreBound(c, rest, next);
      ExtendsTransitive(o.bound, next.bound, after);
      AcceptedNowIsBound(c, e, o.bound);
      BoundStays(AcceptedNow(c, e, o.bound), Accepted(c, rest, next.bound), next.bound, after);
    }
  }

  lemma {:induction false} EverAcceptedAreBound(requests: seq<Request>, g: Bindings)
    ensures Extends(g, Serve(requests, g)) && AllBound(EverAccepted(requests, g), Serve(requests, g))
    decreases |requests|
  {
    if requests != [] {
      hide EvaluateFrom, Accepted, Ready, AllBound, Extends;
      var q, rest := requests[0], requests[1..];
      var next := Evaluate(q.context, q.evidence, true, g).bound;
      AcceptedAreBound(q.context, q.evidence, Outcome(NOTHING, g));
      NothingBound(g);
      EverAcceptedAreBound(rest, next);
      ExtendsTransitive(g, next, Serve(rest, next));
      var now := if Ready(q.context) then Accepted(q.context, q.evidence, g) else [];
      BoundStays(now, EverAccepted(rest, next), next, Serve(rest, next));
    }
  }

  lemma NothingBound(g: Bindings)
    ensures AllBound([], g) && Extends(g, g)
  {
  }

  /** Over any sequence of evaluations, all live evidence accepted for one run nonce has one evidence ID. */
  lemma OneEvidencePerNonce(requests: seq<Request>, g: Bindings, i: nat, j: nat)
    requires var all := EverAccepted(requests, g); i < |all| && j < |all| && all[i].nonce == all[j].nonce
    ensures EverAccepted(requests, g)[i].id == EverAccepted(requests, g)[j].id
  {
    hide EverAccepted, Serve;
    EverAcceptedAreBound(requests, g);
  }

  // ---- What is signed --------------------------------------------------------------------

  ghost predicate ReorderedAuthorization(a: Authorization, b: Authorization) {
    a == b.(subject := a.subject) && SameScope(a.subject, b.subject)
  }

  ghost predicate ReorderedReceipt(a: Receipt, b: Receipt) {
    a == b.(subject := a.subject) && SameScope(a.subject, b.subject)
  }

  /** The same document but for the order of the lists in its subjects and the value of its own signature. */
  ghost predicate SameContent(e: Evidence, f: Evidence) {
    && e == f.(subject := e.subject, authorization := e.authorization, receipt := e.receipt, signature := e.signature)
    && SameScope(e.subject, f.subject) && Blanked(e.signature) == Blanked(f.signature)
    && e.authorization.Some? == f.authorization.Some? && e.receipt.Some? == f.receipt.Some?
    && (e.authorization.Some? ==> ReorderedAuthorization(e.authorization.value, f.authorization.value))
    && (e.receipt.Some? ==> ReorderedReceipt(e.receipt.value, f.receipt.value))
  }

  lemma CanonicalAuthorizations(a: Authorization, b: Authorization)
    ensures CanonicalAuthorization(a) == CanonicalAuthorization(b) <==> ReorderedAuthorization(a, b)
    ensures SignedAuthorization(a) == SignedAuthorization(b) <==>
              Blanked(a.signature) == Blanked(b.signature) && ReorderedAuthorization(a, b.(signature := a.signature))
  {
    hide Canonical, SameScope;
    CanonicalFormsAgree(a.subject, b.subject);
    var ca, cb := CanonicalAuthorization(a), CanonicalAuthorization(b);
    assert a == ca.(subject := a.subject) && b == cb.(subject := b.subject);
    var sa, sb := SignedAuthorization(a), SignedAuthorization(b);
    assert a == sa.(subject := a.subject, signature := a.signature);
    assert b == sb.(subject := b.subject, signature := b.signature);
  }

  lemma CanonicalReceipts(a: Receipt, b: Receipt)
    ensures CanonicalReceipt(a) == CanonicalReceipt(b) <==> ReorderedReceipt(a, b)
    ensures SignedReceipt(a) == SignedReceipt(b) <==>
              Blanked(a.signature) == Blanked(b.signature) && ReorderedReceipt(a, b.(signature := a.signature))
  {
    hide Canonical, SameScope;
    CanonicalFormsAgree(a.subject, b.subject);
    var ca, cb := CanonicalReceipt(a), CanonicalReceipt(b);
    assert a == ca.(subject := a.subject) && b == cb.(subject := b.subject);
    var sa, sb := SignedReceipt(a), SignedReceipt(b);
    assert a == sa.(subject := a.subject, signature := a.signature);
    assert b == sb.(subject := b.subject, signature := b.signature);
  }

  /** Two documents have one signed form exactly when they differ in list order and their own signature's value
      alone. */
  lemma SignedFormIsExact(e: Evidence, f: Evidence)
    ensures SignedEvidence(e) == SignedEvidence(f) <==> SameContent(e, f)
  {
    hide Canonical, SameScope, CanonicalAuthorization, CanonicalReceipt, ReorderedAuthorization, ReorderedReceipt,
        Blanked;
    CanonicalFormsAgree(e.subject, f.subject);
    if e.authorization.Some? && f.authorization.Some? {
      CanonicalAuthorizations(e.authorization.value, f.authorization.value);
    }
    if e.receipt.Some? && f.receipt.Some? { CanonicalReceipts(e.receipt.value, f.receipt.value); }
    SignedKeepsTheRest(e);
    SignedKeepsTheRest(f);
  }

  lemma SignedKeepsTheRest(e: Evidence)
    ensures var s := SignedEvidence(e);
      e == s.(subject := e.subject, authorization := e.authorization, receipt := e.receipt, signature := e.signature)
  {
    hide Canonical;
  }
}
