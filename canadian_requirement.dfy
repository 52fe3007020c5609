/** The "Canadian or Admin" authorization requirement handler.

    The handler inspects an already loaded principal and either signals
    success or leaves the authorization context without a decision; it never
    signals failure and changes nothing. It is modelled as a pure function
    whose result is the signal. */
module CanadianRequirement {
  import opened Claims

  /** The authenticated actor of a request: the role names it is in and the
      claims it carries, in order. */
  datatype Principal = Principal(roles: set<string>, claims: seq<Claim>)

  /** What the handler leaves in the authorization context. */
  datatype Decision = Succeed | NoDecision

  const AdminRole: string := "Admin"
  const Canada: string := "Canada"

  /** The claim test of the handler exactly as written: it compares the
      claim's VALUE TYPE, not its type, with the Country claim type, and the
      value with "Canada" by ordinal equality. */
  predicate IsCanadianClaim(c: Claim) {
    c.valueType == CountryClaimType && c.value == Canada
  }

  /** `ClaimsPrincipal.HasClaim(match)`: a scan of the claims that stops at
      the first one `accepts` holds of. */
  function HasClaim(claims: seq<Claim>, accepts: Claim -> bool): (r: bool)
    ensures r <==> exists c :: c in claims && accepts(c)
  {
    if claims == [] then false
    else accepts(claims[0]) || HasClaim(claims[1..], accepts)
  }

  /** `HandleRequirementAsync`: succeed when the principal is in role Admin or
      carries a claim whose value type is the Country claim type and whose
      value is exactly "Canada"; otherwise make no decision. */
  function HandleRequirement(p: Principal): (d: Decision)
    ensures d == Succeed <==>
              AdminRole in p.roles ||
              exists c :: c in p.claims && c.valueType == CountryClaimType && c.value == Canada
    ensures d == NoDecision <==>
              AdminRole !in p.roles &&
              forall c :: c in p.claims ==> c.valueType != CountryClaimType || c.value != Canada
  {
    if AdminRole in p.roles || HasClaim(p.claims, IsCanadianClaim) then Succeed else NoDecision
  }

  /** An Admin succeeds whatever claims it carries, none included. */
  lemma AdminSucceedsWhateverClaims(roles: set<string>, claims: seq<Claim>)
    requires AdminRole in roles
    ensures HandleRequirement(Principal(roles, claims)) == Succeed
    ensures HandleRequirement(Principal(roles, [])) == Succeed
  {
  }

  /** One matching claim anywhere in the sequence suffices, whatever surrounds it. */
  lemma OneCanadianClaimSuffices(roles: set<string>, before: seq<Claim>, c: Claim, after: seq<Claim>)
    requires IsCanadianClaim(c)
    ensures HandleRequirement(Principal(roles, before + [c] + after)) == Succeed
  {
  }

  /** The order of the claims does not matter: two principals with the same
      roles whose claims are permutations of each other get the same decision. */
  lemma ClaimOrderIsIrrelevant(roles: set<string>, claims: seq<Claim>, reordered: seq<Claim>)
    requires multiset(claims) == multiset(reordered)
    ensures HandleRequirement(Principal(roles, claims)) == HandleRequirement(Principal(roles, reordered))
  {
    forall c | c in claims ensures c in reordered {
      assert c in multiset(claims);
    }
    forall c | c in reordered ensures c in claims {
      assert c in multiset(reordered);
    }
  }

  /** The claim's type is not what is compared: a claim of type Country with
      value "Canada" but any other value type does not satisfy the test ... */
  lemma CountryTypedClaimIsNotEnough(roles: set<string>, valueType: string)
    requires AdminRole !in roles
    requires valueType != CountryClaimType
    ensures HandleRequirement(Principal(roles, [Claim(CountryClaimType, Canada, valueType)])) == NoDecision
  {
  }

  /** ... while a claim of any type whose value type is the Country claim type
      does. */
  lemma ValueTypeDecides(roles: set<string>, claimType: string)
    ensures HandleRequirement(Principal(roles, [Claim(claimType, Canada, CountryClaimType)])) == Succeed
  {
  }

  /** The value is compared by exact ordinal equality: for a non-Admin with a
      single claim of the Country value type, success iff the value is
      exactly "Canada"; so "canada" and "Canada " are refused. */
  lemma ValueMustBeExactlyCanada(roles: set<string>, claimType: string, value: string)
    requires AdminRole !in roles
    ensures HandleRequirement(Principal(roles, [Claim(claimType, value, CountryClaimType)])) == Succeed
            <==> value == Canada
    ensures HandleRequirement(Principal(roles, [Claim(claimType, "canada", CountryClaimType)])) == NoDecision
    ensures HandleRequirement(Principal(roles, [Claim(claimType, "Canada ", CountryClaimType)])) == NoDecision
  {
  }

  /** Monotonicity: giving a principal more roles or more claims never takes
      success away. */
  lemma MoreRolesAndClaimsKeepSuccess(p: Principal, q: Principal)
    requires p.roles <= q.roles
    requires forall c :: c in p.claims ==> c in q.claims
    requires HandleRequirement(p) == Succeed
    ensures HandleRequirement(q) == Succeed
  {
  }

  /** The claim test the handler evidently intends: the claim's TYPE is
      compared with the Country claim type. */
  predicate IsCanadianClaimByType(c: Claim) {
    c.claimType == CountryClaimType && c.value == Canada
  }

  /** The handler's decision with the intended claim test. */
  function HandleRequirementByClaimType(p: Principal): (d: Decision)
    ensures d == Succeed <==>
              AdminRole in p.roles ||
              exists c :: c in p.claims && c.claimType == CountryClaimType && c.value == Canada
  {
    if AdminRole in p.roles || HasClaim(p.claims, IsCanadianClaimByType) then Succeed else NoDecision
  }

  /** As written, a principal whose claims were all issued by type and value
      (so with the string value type) succeeds only as an Admin: the Country
      claim "Canada" issued that way is never recognised. */
  lemma IssuedCountryClaimIsIgnored(roles: set<string>, claims: seq<Claim>)
    requires forall c :: c in claims ==> c.valueType == StringValueType
    ensures HandleRequirement(Principal(roles, claims)) == Succeed <==> AdminRole in roles
    ensures HandleRequirement(Principal(roles, [Issue(CountryClaimType, Canada)])) == Succeed
            <==> AdminRole in roles
  {
  }

  /** With the intended claim test, the issued Country claim "Canada" admits
      the principal wherever it stands among its claims. */
  lemma IssuedCountryClaimAdmitsByClaimType(roles: set<string>, before: seq<Claim>, after: seq<Claim>)
    ensures HandleRequirementByClaimType(Principal(roles, before + [Issue(CountryClaimType, Canada)] + after)) == Succeed
  {
  }

  /** The intended and the written decisions differ only on principals
      carrying a claim whose type and value type disagree about being the
      Country claim type. */
  lemma ByClaimTypeAgreesWhenTypesCoincide(p: Principal)
    requires forall c :: c in p.claims ==> (c.claimType == CountryClaimType <==> c.valueType == CountryClaimType)
    ensures HandleRequirementByClaimType(p) == HandleRequirement(p)
  {
  }
}
