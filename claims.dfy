// ClaimsPrincipalExtensions: reading the caller's user id and access key from the claims the
// authentication handler put on the request's principal.
module Claims {
  import opened Wrappers
  import opened Guids
  import opened Text

  datatype Claim = Claim(claimType: string, value: string)

  /** A ClaimsPrincipal, as the claims of its identities in order. */
  type ClaimsPrincipal = seq<Claim>

  /** ClaimTypes.NameIdentifier. */
  const NameIdentifier: string := "http://schemas.xmlsoap.org/ws/2005/05/identity/claims/nameidentifier"

  const AccessKeyClaimType: string := "accessKey"

  /** The exceptions the extensions throw. */
  datatype ClaimError = NullReference(message: string) | Argument(message: string)

  predicate IsHexDigit(c: char)
  {
    IsLowerHexDigit(c) || 'A' <= c <= 'F'
  }

  predicate AllHex(s: string)
  {
    forall i :: 0 <= i < |s| ==> IsHexDigit(s[i])
  }

  function LowerHex(s: string): (g: Guid)
    requires |s| == 32 && AllHex(s)
    ensures forall i :: 0 <= i < 32 ==> g[i] == ToLowerAscii(s[i])
  {
    var r := seq(32, i requires 0 <= i < 32 => ToLowerAscii(s[i]));
    assert IsGuidDigits(r);
    r
  }

  /**
   * Guid.TryParse on the two plain forms: 32 hexadecimal digits, or the same split 8-4-4-4-12
   * by hyphens; digits of either case, the value being the same.
   */
  function TryParseGuid(s: string): (r: Option<Guid>)
    ensures r.Some? ==> |s| == 32 || |s| == 36
    ensures |s| == 32 ==> (r.Some? <==> AllHex(s))
  {
    if |s| == 32 && AllHex(s) then Some(LowerHex(s))
    else if |s| == 36 && s[8] == '-' && s[13] == '-' && s[18] == '-' && s[23] == '-' && AllHex(Unformat(s)) then
      Some(LowerHex(Unformat(s)))
    else None
  }

  /** A Guid written in the form string interpolation uses parses back to itself. */
  lemma ParseFormat(g: Guid)
    ensures TryParseGuid(Format(g)) == Some(g)
  {
    var s := Format(g);
    UnformatFormat(g);
    assert AllHex(Unformat(s));
    assert LowerHex(Unformat(s)) == g;
  }

  /** Index of the first claim of the type, compared ignoring case (ClaimsPrincipal.FindFirst). */
  function FindFirst(principal: ClaimsPrincipal, claimType: string, from: nat): (r: Option<nat>)
    ensures r.Some? ==> from <= r.value < |principal| && EqualsIgnoreCase(principal[r.value].claimType, claimType)
    ensures r.Some? ==> forall j | from <= j < r.value :: !EqualsIgnoreCase(principal[j].claimType, claimType)
    ensures r.None? ==> forall j | from <= j < |principal| :: !EqualsIgnoreCase(principal[j].claimType, claimType)
    decreases |principal| - from
  {
    if from >= |principal| then None
    else if EqualsIgnoreCase(principal[from].claimType, claimType) then Some(from)
    else FindFirst(principal, claimType, from + 1)
  }

  predicate HasClaim(principal: ClaimsPrincipal, claimType: string)
  {
    exists j | 0 <= j < |principal| :: EqualsIgnoreCase(principal[j].claimType, claimType)
  }

  /** The value of the first claim of the type, or null (None) when the principal has none. */
  function GetClaimValueOrNull(principal: ClaimsPrincipal, claimType: string): (r: Option<string>)
    ensures r.None? <==> !HasClaim(principal, claimType)
    ensures r.Some? ==> exists j | 0 <= j < |principal| ::
      EqualsIgnoreCase(principal[j].claimType, claimType) && r.value == principal[j].value &&
      forall k | 0 <= k < j :: !EqualsIgnoreCase(principal[k].claimType, claimType)
  {
    match FindFirst(principal, claimType, 0)
    case Some(j) => Some(principal[j].value)
    case None => None
  }

  /** The value of the first claim of the type; a principal without one makes it throw. */
  function GetClaimValue(principal: ClaimsPrincipal, claimType: string): (r: Result<string, ClaimError>)
    ensures r.Failure? <==> !HasClaim(principal, claimType)
    ensures r.Failure? ==> r.error.NullReference?
  {
    match FindFirst(principal, claimType, 0)
    case Some(j) => Success(principal[j].value)
    case None => Failure(NullReference("Claims principal does not contain a " + claimType + " claim"))
  }

  /** The throwing and the null-returning lookup agree wherever the first one succeeds. */
  lemma ClaimLookupsAgree(principal: ClaimsPrincipal, claimType: string)
    ensures GetClaimValue(principal, claimType).Success? <==> GetClaimValueOrNull(principal, claimType).Some?
    ensures GetClaimValue(principal, claimType).Success? ==>
      GetClaimValue(principal, claimType).value == GetClaimValueOrNull(principal, claimType).value
  {
  }

  /** The caller's id; a missing claim throws NullReferenceException, an unparseable one ArgumentException. */
  function GetId(principal: ClaimsPrincipal): (r: Result<Guid, ClaimError>)
    ensures !HasClaim(principal, NameIdentifier) ==> r.Failure? && r.error.NullReference?
    ensures HasClaim(principal, NameIdentifier) ==>
      var id := GetClaimValueOrNull(principal, NameIdentifier).value;
      (TryParseGuid(id).Some? ==> r == Success(TryParseGuid(id).value)) &&
      (TryParseGuid(id).None? ==> r == Failure(Argument("User Id was not a valid Guid. Got '" + id + "'")))
  {
    match GetClaimValue(principal, NameIdentifier)
    case Failure(e) => Failure(e)
    case Success(id) =>
      match TryParseGuid(id)
      case Some(g) => Success(g)
      case None => Failure(Argument("User Id was not a valid Guid. Got '" + id + "'"))
  }

  /**
   * The caller's id, or null when the claim does not parse. As written it looks the claim up
   * with the throwing lookup, so a principal without the claim still throws.
   */
  function GetIdOrNull(principal: ClaimsPrincipal): (r: Result<Option<Guid>, ClaimError>)
    ensures r.Failure? <==> !HasClaim(principal, NameIdentifier)
    ensures r.Success? ==> r.value == TryParseGuid(GetClaimValueOrNull(principal, NameIdentifier).value)
  {
    match GetClaimValue(principal, NameIdentifier)
    case Failure(e) => Failure(e)
    case Success(id) => Success(TryParseGuid(id))
  }

  /** The caller's id, or null when the claim is missing or does not parse. */
  function GetIdOrNullFixed(principal: ClaimsPrincipal): (r: Option<Guid>)
  {
    match GetClaimValueOrNull(principal, NameIdentifier)
    case None => None
    case Some(id) => TryParseGuid(id)
  }

  /** The caller's access key; a principal without one makes it throw. */
  function GetAccessKey(principal: ClaimsPrincipal): (r: Result<string, ClaimError>)
    ensures r.Failure? <==> !HasClaim(principal, AccessKeyClaimType)
    ensures r.Success? ==> Some(r.value) == GetClaimValueOrNull(principal, AccessKeyClaimType)
  {
    GetClaimValue(principal, AccessKeyClaimType)
  }

  /** GetId and GetIdOrNull return the same Guid whenever GetId succeeds. */
  lemma GetIdAgrees(principal: ClaimsPrincipal)
    ensures GetId(principal).Success? ==> GetIdOrNull(principal) == Success(Some(GetId(principal).value))
    ensures GetId(principal).Failure? && GetId(principal).error.Argument? ==> GetIdOrNull(principal) == Success(None)
  {
  }

  /** An anonymous caller, whose principal has no claims, makes GetIdOrNull throw instead of returning null. */
  lemma AnonymousGetIdOrNullThrows()
    ensures GetIdOrNull([]).Failure?
    ensures GetIdOrNull([]) == Failure(NullReference("Claims principal does not contain a " + NameIdentifier + " claim"))
  {
  }

  /**
   * The corrected lookup returns null exactly when the claim is missing or does not parse,
   * and otherwise the Guid GetId returns.
   */
  lemma GetIdOrNullFixedMeaning(principal: ClaimsPrincipal)
    ensures GetIdOrNullFixed(principal).None? <==> GetId(principal).Failure?
    ensures GetId(principal).Success? ==> GetIdOrNullFixed(principal) == Some(GetId(principal).value)
    ensures GetIdOrNull(principal).Success? ==> GetIdOrNullFixed(principal) == GetIdOrNull(principal).value
    ensures GetIdOrNullFixed([]).None?
  {
  }

  /** A principal whose first name-identifier claim holds a formatted user id yields that id. */
  lemma GetIdOfIssuedClaim(principal: ClaimsPrincipal, userId: Guid)
    requires |principal| > 0 && principal[0] == Claim(NameIdentifier, Format(userId))
    ensures GetId(principal) == Success(userId)
    ensures GetIdOrNullFixed(principal) == Some(userId)
  {
    ParseFormat(userId);
  }
}
