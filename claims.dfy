/** Security claims as the .NET claims model carries them: a type, a value and
    a value type, each a string. Only the constants this application uses are
    declared. */
module Claims {

  /** A claim attached to a principal or stored against an account. */
  datatype Claim = Claim(claimType: string, value: string, valueType: string)

  /** The value of `ClaimTypes.Country`. */
  const CountryClaimType: string := "http://schemas.xmlsoap.org/ws/2005/05/identity/claims/country"

  /** The value of `ClaimValueTypes.String`, the value type a claim gets when
      it is built from a type and a value only. */
  const StringValueType: string := "http://www.w3.org/2001/XMLSchema#string"

  /** The claim `new Claim(claimType, value)` builds: its value type defaults
      to the string value type. */
  function Issue(claimType: string, value: string): Claim {
    Claim(claimType, value, StringValueType)
  }
}
