/**
 * The bearer-token authorization gate: extract the token from the
 * `Authorization` header, verify it against the identity provider's key
 * set, check the required permission, and only then run the wrapped handler.
 */
module Auth {
  import opened Wrappers
  import opened Text

  /** An `AuthError`: its error dict (`code`, `description`) and the status code it was raised with. */
  datatype AuthError = AuthError(code: string, description: string, statusCode: int)

  const HEADER_MISSING := AuthError("authorization_header_missing", "Authorization header is missing.", 401)
  const HEADER_INVALID := AuthError("invalid_header", "Header invalid", 401)
  const BEARER_REQUIRED := AuthError("invalid_header", "Authorization header must start with \"Bearer\".", 401)
  const PERMISSIONS_MISSING := AuthError("invalid_claims", "Permissions not included in JWT.", 400)
  const PERMISSION_NOT_FOUND := AuthError("unauthorized", "Permission not found.", 403)
  const KID_MISSING := AuthError("invalid_header", "Authorization malformed.", 401)
  const TOKEN_EXPIRED := AuthError("token_expired", "Token expired.", 401)
  const INCORRECT_CLAIMS := AuthError("invalid_claims", "Incorrect claims. Please, check the audience and issuer.", 401)
  const UNPARSABLE_TOKEN := AuthError("invalid_header", "Unable to parse authentication token.", 400)
  const KEY_NOT_FOUND := AuthError("invalid_header", "Unable to find the appropriate key.", 400)

  /** A decoded JWT payload: the `permissions` claim when present, and the other claims. */
  datatype Payload = Payload(permissions: Option<seq<string>>, claims: map<string, string>)

  /** One entry of the provider's JSON Web Key Set. */
  datatype Jwk = Jwk(kty: string, kid: string, usage: string, n: string, e: string)

  /** The unverified JOSE header of a token. */
  datatype TokenHeader = TokenHeader(kid: Option<string>)

  /** What `jwt.decode` makes of a token and a key (signature, audience, issuer and expiry checks). */
  datatype DecodeResult = Decoded(payload: Payload) | Expired | ClaimsError | OtherError

  /**
   * The identity provider and the JOSE library as the gate sees them.
   * `keySet` is `None` when fetching or parsing the published key set raises;
   * `unverifiedHeader` gives `None` when the token's header cannot be parsed.
   */
  datatype IdentityProvider = IdentityProvider(
    keySet: Option<seq<Jwk>>,
    unverifiedHeader: string -> Option<TokenHeader>,
    decode: (string, Jwk) -> DecodeResult)

  /** A step that returns a value, raises an `AuthError`, or raises some other exception. */
  datatype Step<T> = Pass(value: T) | Raise(error: AuthError) | Crash

  /**
   * What the decorated route does: the wrapped function ran and gave `result`;
   * or the gate aborted with `status` and the error dict of `error`; or an
   * exception other than `AuthError` escaped the gate.
   */
  datatype Guarded<R> = Invoked(result: R) | Aborted(status: int, error: AuthError) | Crashed

  // ---------------------------------------------------------------------
  // get_token_auth_header
  // ---------------------------------------------------------------------

  /** The bearer token of an `Authorization` header value (`None` when the header is absent). */
  function GetTokenAuthHeader(header: Option<string>): (r: Result<string, AuthError>)
    ensures r == Failure(HEADER_MISSING) <==> header == None || header == Some("")
    ensures r.Success? <==>
      && header.Some? && header.value != ""
      && |Split(header.value)| == 2
      && Lower(Split(header.value)[0]) == "bearer"
    ensures r.Success? ==> IsWord(r.value) && r.value == Split(header.value)[1]
    ensures header.Some? && header.value != "" && |Split(header.value)| != 2 ==> r == Failure(HEADER_INVALID)
    ensures header.Some? && header.value != "" && |Split(header.value)| == 2 && Lower(Split(header.value)[0]) != "bearer" ==>
      r == Failure(BEARER_REQUIRED)
    ensures r.Failure? ==> r.error.statusCode == 401
  {
    if header.None? || header.value == "" then Failure(HEADER_MISSING)
    else
      var parts := Split(header.value);
      if |parts| != 2 then Failure(HEADER_INVALID)
      else if Lower(parts[0]) != "bearer" then Failure(BEARER_REQUIRED)
      else Success(parts[1])
  }

  /**
   * Any spelling of "Bearer", then whitespace, then a token, with any
   * whitespace around them, yields exactly that token.
   */
  lemma BearerHeaderAccepted(lead: string, scheme: string, gap: string, token: string, trail: string)
    requires AllSpace(lead) && AllSpace(gap) && gap != [] && AllSpace(trail)
    requires Lower(scheme) == "bearer" && IsWord(token)
    ensures GetTokenAuthHeader(Some(lead + scheme + gap + token + trail)) == Success(token)
  {
    BearerIsWord(scheme);
    SplitTwoWords(lead, scheme, gap, token, trail);
  }

  /** A spelling of "bearer" is a word. */
  lemma BearerIsWord(scheme: string)
    requires Lower(scheme) == "bearer"
    ensures IsWord(scheme)
  {
    LowerIsBearer(scheme);
  }

  /**
   * An accepted header is, conversely, always of that shape: whitespace,
   * the scheme, non-empty whitespace, the returned token, whitespace.
   */
  lemma AcceptedHeaderShape(h: string)
    requires GetTokenAuthHeader(Some(h)).Success?
    ensures var g, parts := Gaps(h), Split(h);
      && |g| == 3 && AllSpace(g[0]) && AllSpace(g[1]) && g[1] != [] && AllSpace(g[2])
      && Lower(parts[0]) == "bearer"
      && h == g[0] + parts[0] + g[1] + GetTokenAuthHeader(Some(h)).value + g[2]
  {
    SplitReassembles(h);
    InterleaveTwo(Gaps(h), Split(h));
  }

  lemma InterleaveTwo(gaps: seq<string>, words: seq<string>)
    requires |gaps| == 3 && |words| == 2
    ensures Interleave(gaps, words) == gaps[0] + words[0] + gaps[1] + words[1] + gaps[2]
  {
    assert Interleave(gaps[2..], words[2..]) == gaps[2];
    assert Interleave(gaps[1..], words[1..]) == gaps[1] + words[1] + gaps[2];
  }

  /** A scheme with no token after it, such as `"Bearer "`, is one part and so rejected as invalid. */
  lemma SchemeOnlyHeaderRejected(lead: string, scheme: string, trail: string)
    requires AllSpace(lead) && IsWord(scheme) && AllSpace(trail)
    ensures GetTokenAuthHeader(Some(lead + scheme + trail)) == Failure(HEADER_INVALID)
  {
    SplitAllSpace(trail);
    if trail != [] {
      assert IsSpace(trail[0]);
    }
    SplitCons(lead, scheme, trail);
  }

  /** The header every request of the test suite sends when the role's token is left blank. */
  lemma BlankTokenHeaderRejected()
    ensures GetTokenAuthHeader(Some("Bearer ")) == Failure(HEADER_INVALID)
  {
    assert "Bearer " == "" + "Bearer" + " ";
    assert IsWord("Bearer");
    SchemeOnlyHeaderRejected("", "Bearer", " ");
  }

  /** A header with a third part is rejected as invalid even when it starts with "Bearer". */
  lemma ThreePartHeaderRejected(a: string, b: string, c: string)
    requires IsWord(a) && IsWord(b) && IsWord(c)
    ensures GetTokenAuthHeader(Some(a + " " + b + " " + c)) == Failure(HEADER_INVALID)
  {
    SplitThreeWords(a, b, c);
  }

  lemma SplitThreeWords(a: string, b: string, c: string)
    requires IsWord(a) && IsWord(b) && IsWord(c)
    ensures Split(a + " " + b + " " + c) == [a, b, c]
  {
    var tail := " " + b + " " + c + "";
    assert AllSpace(" ") && AllSpace("");
    SplitTwoWords(" ", b, " ", c, "");
    assert tail[0] == ' ';
    SplitCons("", a, tail);
    RegroupThree(a, b, c);
  }

  lemma RegroupThree(a: string, b: string, c: string)
    ensures a + " " + b + " " + c == "" + a + (" " + b + " " + c + "")
  {
  }

  // ---------------------------------------------------------------------
  // check_permissions
  // ---------------------------------------------------------------------

  /** Whether `payload` grants `permission`; returns `true` or raises. */
  function CheckPermissions(permission: string, payload: Payload): (r: Result<bool, AuthError>)
    ensures r.Success? <==> payload.permissions.Some? && permission in payload.permissions.value
    ensures r.Success? ==> r.value
    ensures payload.permissions.None? ==> r == Failure(PERMISSIONS_MISSING)
    ensures payload.permissions.Some? && permission !in payload.permissions.value ==>
      r == Failure(PERMISSION_NOT_FOUND)
  {
    if payload.permissions.None? then Failure(PERMISSIONS_MISSING)
    else if permission !in payload.permissions.value then Failure(PERMISSION_NOT_FOUND)
    else Success(true)
  }

  // ---------------------------------------------------------------------
  // verify_decode_jwt
  // ---------------------------------------------------------------------

  /**
   * The position of the last key of the set whose `kid` matches, since a
   * later match overwrites an earlier one.
   */
  function LastMatch(keys: seq<Jwk>, kid: string): (r: Option<nat>)
    ensures r.None? <==> forall i :: 0 <= i < |keys| ==> keys[i].kid != kid
    ensures r.Some? ==>
      r.value < |keys| && keys[r.value].kid == kid && forall j :: r.value < j < |keys| ==> keys[j].kid != kid
  {
    if keys == [] then None
    else if keys[|keys| - 1].kid == kid then Some(|keys| - 1)
    else
      var r := LastMatch(keys[..|keys| - 1], kid);
      assert forall i :: 0 <= i < |keys| - 1 ==> keys[..|keys| - 1][i] == keys[i];
      r
  }

  /** The key the selection loop ends with. */
  function LastMatchingKey(keys: seq<Jwk>, kid: string): (r: Option<Jwk>)
    ensures r.None? <==> forall i :: 0 <= i < |keys| ==> keys[i].kid != kid
    ensures r.Some? ==>
      exists i :: 0 <= i < |keys| && keys[i] == r.value && keys[i].kid == kid
        && forall j :: i < j < |keys| ==> keys[j].kid != kid
  {
    match LastMatch(keys, kid)
    case None => None
    case Some(i) => Some(keys[i])
  }

  /** The selection loop over `jwks['keys']`, copying each key whose `kid` matches. */
  method SelectKey(keys: seq<Jwk>, kid: string) returns (rsaKey: Option<Jwk>)
    ensures rsaKey == LastMatchingKey(keys, kid)
  {
    rsaKey := None;
    for i := 0 to |keys|
      invariant rsaKey == LastMatchingKey(keys[..i], kid)
    {
      assert keys[..i + 1][..i] == keys[..i];
      if keys[i].kid == kid {
        rsaKey := Some(Jwk(keys[i].kty, keys[i].kid, keys[i].usage, keys[i].n, keys[i].e));
      }
    }
    assert keys[..|keys|] == keys;
  }

  /**
   * `verify_decode_jwt`: fetch the key set, read the token's `kid`, pick the
   * matching key and let the JOSE library check the token with it.
   */
  function VerifyDecodeJwt(token: string, idp: IdentityProvider): (r: Step<Payload>)
    ensures r.Crash? <==> idp.keySet.None? || idp.unverifiedHeader(token).None?
    ensures r.Raise? ==> r.error in {KID_MISSING, KEY_NOT_FOUND, TOKEN_EXPIRED, INCORRECT_CLAIMS, UNPARSABLE_TOKEN}
    ensures r.Pass? ==>
      && idp.keySet.Some? && idp.unverifiedHeader(token).Some? && idp.unverifiedHeader(token).value.kid.Some?
      && var keys, kid := idp.keySet.value, idp.unverifiedHeader(token).value.kid.value;
      exists i :: 0 <= i < |keys| && keys[i].kid == kid && idp.decode(token, keys[i]) == Decoded(r.value)
        && forall j :: i < j < |keys| ==> keys[j].kid != kid
    ensures idp.keySet.Some? && idp.unverifiedHeader(token).Some? ==>
      var kid := idp.unverifiedHeader(token).value.kid;
      && (kid.None? ==> r == Raise(KID_MISSING))
      && (kid.Some? && LastMatchingKey(idp.keySet.value, kid.value).None? ==> r == Raise(KEY_NOT_FOUND))
    ensures (&& idp.keySet.Some? && idp.unverifiedHeader(token).Some? && idp.unverifiedHeader(token).value.kid.Some?
             && LastMatchingKey(idp.keySet.value, idp.unverifiedHeader(token).value.kid.value).Some?) ==>
      var decoded := idp.decode(token, LastMatchingKey(idp.keySet.value, idp.unverifiedHeader(token).value.kid.value).value);
      && (decoded.Decoded? ==> r == Pass(decoded.payload))
      && (decoded.Expired? ==> r == Raise(TOKEN_EXPIRED))
      && (decoded.ClaimsError? ==> r == Raise(INCORRECT_CLAIMS))
      && (decoded.OtherError? ==> r == Raise(UNPARSABLE_TOKEN))
  {
    match idp.keySet
    case None => Crash
    case Some(keys) =>
      match idp.unverifiedHeader(token)
      case None => Crash
      case Some(header) =>
        if header.kid.None? then Raise(KID_MISSING)
        else
          match LastMatchingKey(keys, header.kid.value)
          case None => Raise(KEY_NOT_FOUND)
          case Some(rsaKey) =>
            match idp.decode(token, rsaKey)
            case Decoded(payload) => Pass(payload)
            case Expired => Raise(TOKEN_EXPIRED)
            case ClaimsError => Raise(INCORRECT_CLAIMS)
            case OtherError => Raise(UNPARSABLE_TOKEN)
  }

  /** A token whose header has no `kid` is rejected before any key is looked at. */
  lemma MissingKidRejected(token: string, idp: IdentityProvider)
    requires idp.keySet.Some? && idp.unverifiedHeader(token) == Some(TokenHeader(None))
    ensures VerifyDecodeJwt(token, idp) == Raise(KID_MISSING) && KID_MISSING.statusCode == 401
  {
  }

  /** A `kid` that no key of the set carries gives "Unable to find the appropriate key." with 400. */
  lemma UnknownKidRejected(token: string, idp: IdentityProvider, kid: string)
    requires idp.keySet.Some? && idp.unverifiedHeader(token) == Some(TokenHeader(Some(kid)))
    requires forall i :: 0 <= i < |idp.keySet.value| ==> idp.keySet.value[i].kid != kid
    ensures VerifyDecodeJwt(token, idp) == Raise(KEY_NOT_FOUND) && KEY_NOT_FOUND.statusCode == 400
  {
  }

  /**
   * With two keys carrying the token's `kid`, the later one is used: the
   * outcome, whatever decoding gives, is the one a key set holding only the
   * second key would give, and a successful decode yields its payload.
   */
  lemma DuplicateKidUsesLastKey(token: string, idp: IdentityProvider, first: Jwk, second: Jwk)
    requires idp.keySet == Some([first, second]) && first.kid == second.kid
    requires idp.unverifiedHeader(token) == Some(TokenHeader(Some(first.kid)))
    ensures VerifyDecodeJwt(token, idp) == VerifyDecodeJwt(token, idp.(keySet := Some([second])))
    ensures idp.decode(token, second).Decoded? ==> VerifyDecodeJwt(token, idp) == Pass(idp.decode(token, second).payload)
  {
    assert [first, second][..1] == [first];
    assert [second][..0] == [];
  }

  // ---------------------------------------------------------------------
  // requires_auth
  // ---------------------------------------------------------------------

  /**
   * `requires_auth(permission)(f)` applied to a request with the given
   * `Authorization` header: extract, then verify, then check; `f` runs on
   * the decoded payload only when all three pass, and every `AuthError`
   * becomes an abort with status 401 carrying its error dict.
   */
  function RequiresAuth<R>(permission: string, f: Payload -> R, header: Option<string>, idp: IdentityProvider)
    : (g: Guarded<R>)
    ensures g.Aborted? ==> g.status == 401
    ensures g.Invoked? <==>
      && GetTokenAuthHeader(header).Success?
      && VerifyDecodeJwt(GetTokenAuthHeader(header).value, idp).Pass?
      && CheckPermissions(permission, VerifyDecodeJwt(GetTokenAuthHeader(header).value, idp).value).Success?
    ensures g.Invoked? ==> g.result == f(VerifyDecodeJwt(GetTokenAuthHeader(header).value, idp).value)
    ensures g.Crashed? <==>
      GetTokenAuthHeader(header).Success? && VerifyDecodeJwt(GetTokenAuthHeader(header).value, idp).Crash?
    ensures GetTokenAuthHeader(header).Failure? ==> g == Aborted(401, GetTokenAuthHeader(header).error)
    ensures GetTokenAuthHeader(header).Success? && VerifyDecodeJwt(GetTokenAuthHeader(header).value, idp).Raise? ==>
      g == Aborted(401, VerifyDecodeJwt(GetTokenAuthHeader(header).value, idp).error)
    ensures (&& GetTokenAuthHeader(header).Success? && VerifyDecodeJwt(GetTokenAuthHeader(header).value, idp).Pass?
             && CheckPermissions(permission, VerifyDecodeJwt(GetTokenAuthHeader(header).value, idp).value).Failure?) ==>
      g == Aborted(401, CheckPermissions(permission, VerifyDecodeJwt(GetTokenAuthHeader(header).value, idp).value).error)
  {
    match GetTokenAuthHeader(header)
    case Failure(err) => Aborted(401, err)
    case Success(token) =>
      match VerifyDecodeJwt(token, idp)
      case Crash => Crashed
      case Raise(err) => Aborted(401, err)
      case Pass(payload) =>
        match CheckPermissions(permission, payload)
        case Failure(err) => Aborted(401, err)
        case Success(_) => Invoked(f(payload))
  }

  /** When the gate does not let a request through, what happens does not depend on the wrapped function. */
  lemma GateIgnoresHandlerOnFailure<R>(
    permission: string, f1: Payload -> R, f2: Payload -> R, header: Option<string>, idp: IdentityProvider)
    requires !RequiresAuth(permission, f1, header, idp).Invoked?
    ensures RequiresAuth(permission, f1, header, idp) == RequiresAuth(permission, f2, header, idp)
  {
  }

  /** A request without an `Authorization` header is aborted with 401, whatever the route and the provider. */
  lemma MissingHeaderAborts<R>(permission: string, f: Payload -> R, idp: IdentityProvider)
    ensures RequiresAuth(permission, f, None, idp) == Aborted(401, HEADER_MISSING)
  {
  }

  /**
   * A verified token lacking the permission is aborted with 401, not with
   * the 403 that its `AuthError` carries.
   */
  lemma MissingPermissionAborts401<R>(
    permission: string, f: Payload -> R, header: Option<string>, idp: IdentityProvider, payload: Payload)
    requires GetTokenAuthHeader(header).Success?
    requires VerifyDecodeJwt(GetTokenAuthHeader(header).value, idp) == Pass(payload)
    requires payload.permissions.Some? && permission !in payload.permissions.value
    ensures RequiresAuth(permission, f, header, idp) == Aborted(401, PERMISSION_NOT_FOUND)
    ensures PERMISSION_NOT_FOUND.statusCode == 403
  {
  }
}
