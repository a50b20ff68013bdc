/**
 * Bearer-token helpers of the app-router authentication library
 * (src/app/api/auth/lib/jwt.ts). Signing and verifying a token are done by the
 * jsonwebtoken library; here they are parameters, and only their outcome
 * (a payload or null, a token string) enters the model.
 */
module Jwt {
  import opened Js

  /** The claims carried by a token; `iat` and `exp` are added by the signer. */
  datatype JwtPayload = JwtPayload(userId: string, email: string, iat: Option<int>, exp: Option<int>)

  const BearerScheme: string := "Bearer"

  /**
   * `extractTokenFromHeader`: a missing or empty header gives null; otherwise the
   * header is split on single spaces and the token is the second of exactly two
   * parts whose first is exactly `Bearer`.
   */
  function ExtractTokenFromHeader(authHeader: Option<string>): (token: Option<string>)
  {
    if !TruthyString(authHeader) then None
    else
      var parts := Split(authHeader.value, ' ');
      if |parts| != 2 || parts[0] != BearerScheme then None
      else Some(parts[1])
  }

  lemma ExtractFromNull()
    ensures ExtractTokenFromHeader(None) == None
  {
  }

  /** Any token the header yields contains no space character. */
  lemma ExtractedTokenHasNoSpace(authHeader: Option<string>)
    ensures ExtractTokenFromHeader(authHeader).Some? ==> ' ' !in ExtractTokenFromHeader(authHeader).value
  {
    if ExtractTokenFromHeader(authHeader).Some? {
      SplitPartsLackSeparator(authHeader.value, ' ');
    }
  }

  /** Round trip: a space-free token (the empty one included) survives `Bearer ` + token. */
  lemma ExtractRoundTrip(token: string)
    requires ' ' !in token
    ensures ExtractTokenFromHeader(Some("Bearer " + token)) == Some(token)
  {
    assert "Bearer " + token == BearerScheme + [' '] + token;
    SplitAtFirst(BearerScheme, ' ', token);
    SplitWithoutSeparator(token, ' ');
  }

  /** The header yields `token` exactly when it is `Bearer ` followed by that space-free token. */
  lemma ExtractCharacterization(authHeader: Option<string>, token: string)
    ensures ExtractTokenFromHeader(authHeader) == Some(token)
        <==> authHeader == Some("Bearer " + token) && ' ' !in token
  {
    if ExtractTokenFromHeader(authHeader) == Some(token) {
      var parts := Split(authHeader.value, ' ');
      JoinSplit(authHeader.value, ' ');
      SplitPartsLackSeparator(authHeader.value, ' ');
      assert parts[1..] == [token];
      assert Join(parts, [' ']) == BearerScheme + [' '] + token;
      assert BearerScheme + [' '] + token == "Bearer " + token;
    }
    if authHeader == Some("Bearer " + token) && ' ' !in token {
      ExtractRoundTrip(token);
    }
  }

  /** The scheme is case-sensitive and a doubled space is refused. */
  lemma ExtractRejectsMalformed(token: string)
    ensures ExtractTokenFromHeader(Some("bearer " + token)) == None
    ensures ExtractTokenFromHeader(Some("Bearer  " + token)) == None
  {
    assert "bearer " + token == "bearer" + [' '] + token;
    SplitAtFirst("bearer", ' ', token);
    assert "Bearer  " + token == BearerScheme + [' '] + ([' '] + token);
    SplitAtFirst(BearerScheme, ' ', [' '] + token);
    assert [' '] + token == [] + [' '] + token;
    SplitAtFirst([], ' ', token);
  }

  /**
   * `refreshToken`: a token that does not verify gives null; otherwise a new
   * token is signed over the user id and e-mail alone, with the requested expiry.
   */
  function RefreshToken(token: string, expiresIn: string,
                        verify: string -> Option<JwtPayload>,
                        sign: (JwtPayload, string) -> string): (r: Option<string>)
    ensures r.None? <==> verify(token).None?
  {
    match verify(token)
    case None => None
    case Some(payload) => Some(sign(JwtPayload(payload.userId, payload.email, None, None), expiresIn))
  }

  /**
   * The refreshed token depends on the old token's user id and e-mail only: two
   * tokens whose payloads agree on those refresh to the same token, whatever
   * their issue and expiry times.
   */
  lemma RefreshKeepsOnlyIdentity(t1: string, t2: string, expiresIn: string,
                                 verify: string -> Option<JwtPayload>,
                                 sign: (JwtPayload, string) -> string)
    requires verify(t1).Some? && verify(t2).Some?
    requires verify(t1).value.userId == verify(t2).value.userId
    requires verify(t1).value.email == verify(t2).value.email
    ensures RefreshToken(t1, expiresIn, verify, sign) == RefreshToken(t2, expiresIn, verify, sign)
    ensures RefreshToken(t1, expiresIn, verify, sign)
         == Some(sign(JwtPayload(verify(t1).value.userId, verify(t1).value.email, None, None), expiresIn))
  {
  }
}
