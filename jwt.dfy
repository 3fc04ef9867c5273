/** Token issue and verification (helpers/jwt.go). A token is modelled by its signing method and
    its claims; the compact serialization, the HMAC signature and the secret are not. Parsing a
    token string is the parameter `parse`: it says what the JWT library makes of that string with
    the server's key, including whether the signature and the registered claims check out. */
module Jwt {
  import opened Wrappers
  import opened Text

  /** A claim value as verification hands it back: JSON numbers and strings. */
  datatype Claim = Number(n: nat) | Str(s: string)

  type Claims = map<string, Claim>

  datatype SigningMethod = HS256 | HS384 | HS512 | RS256 | ES256 | EdDSA | Unsigned

  /** The methods the `*jwt.SigningMethodHMAC` type assertion accepts. */
  predicate IsHmac(m: SigningMethod) {
    m.HS256? || m.HS384? || m.HS512?
  }

  datatype Token = Token(alg: SigningMethod, claims: Claims)

  /** What jwt.Parse returns for a token string. `NoToken` is the nil token it returns when the
      string does not split into header, payload and signature; otherwise the token's claims are
      always a MapClaims, and `verified` is the library's Valid flag before the key function runs
      (signature and time-based claims). */
  datatype ParsedToken = NoToken | Parsed(alg: SigningMethod, claims: Claims, verified: bool)

  /** The outcome of VerifyToken: the claims, the one error it reports, or a runtime panic. */
  datatype Verification = Verified(claims: Claims) | Rejected(message: string) | Panicked

  const SignInMessage: string := "sign in to proceed"
  const BearerPrefix: string := "Bearer"

  /** GenerateToken: an HS256 token whose claims are exactly the user's id and email. */
  function GenerateToken(id: nat, email: string): (t: Token)
    ensures IsHmac(t.alg)
    ensures t.claims.Keys == {"id", "email"}
    ensures t.claims["id"] == Number(id) && t.claims["email"] == Str(email)
  {
    Token(HS256, map["id" := Number(id), "email" := Str(email)])
  }

  /** The second space-separated piece of the header, when there is one. */
  function SecondField(header: string): (r: Option<string>)
    ensures r.Some? <==> ' ' in header
    ensures r.Some? ==> ' ' !in r.value
  {
    var parts := Split(header, ' ');
    if |parts| >= 2 then Some(parts[1]) else None
  }

  /** VerifyToken: the header must start with "Bearer" (a space is not required by that check);
      the token is the second space-separated piece, and indexing it panics when there is none;
      a nil token from the parser panics on the claims access; a token is accepted only when its
      method is an HMAC one and the library found it valid. Every refusal carries one message. */
  function VerifyToken(header: string, parse: string -> ParsedToken): (v: Verification)
    ensures !HasPrefix(header, BearerPrefix) ==> v == Rejected(SignInMessage)
    ensures HasPrefix(header, BearerPrefix) && ' ' !in header ==> v == Panicked
    ensures v.Rejected? ==> v.message == SignInMessage
    ensures v.Verified? <==>
      && HasPrefix(header, BearerPrefix) && SecondField(header).Some?
      && var p := parse(SecondField(header).value);
         p.Parsed? && IsHmac(p.alg) && p.verified
    ensures v.Verified? ==> v.claims == parse(SecondField(header).value).claims
  {
    if !HasPrefix(header, BearerPrefix) then Rejected(SignInMessage)
    else
      match SecondField(header)
      case None => Panicked
      case Some(tok) =>
        match parse(tok)
        case NoToken => Panicked
        case Parsed(alg, claims, verified) =>
          if IsHmac(alg) && verified then Verified(claims) else Rejected(SignInMessage)
  }

  /** The header a client sends for a token: "Bearer", one space, the token. */
  function BearerHeader(tok: string): string {
    BearerPrefix + " " + tok
  }

  /** The second field of "Bearer <tok>" is the token itself. */
  lemma SecondFieldOfBearer(tok: string)
    requires ' ' !in tok
    ensures SecondField(BearerHeader(tok)) == Some(tok)
  {
    var h := BearerHeader(tok);
    assert h == BearerPrefix + [' '] + tok;
    assert h[6] == ' ';
    assert ' ' !in h[..6];
    assert IndexOf(h, ' ') == Some(6);
    assert h[7..] == tok;
    assert IndexOf(tok, ' ') == None;
    assert Split(tok, ' ') == [tok];
    assert Split(h, ' ') == [h[..6]] + Split(h[7..], ' ');
  }

  /** A token the server issued, sent back as "Bearer <tok>" while the library still finds it
      valid, yields exactly the user's id and email. */
  lemma IssuedTokenVerifies(id: nat, email: string, tok: string, parse: string -> ParsedToken)
    requires ' ' !in tok
    requires parse(tok) == Parsed(GenerateToken(id, email).alg, GenerateToken(id, email).claims, true)
    ensures VerifyToken(BearerHeader(tok), parse) == Verified(map["id" := Number(id), "email" := Str(email)])
  {
    SecondFieldOfBearer(tok);
    assert HasPrefix(BearerHeader(tok), BearerPrefix);
  }

  /** A token the library rejects, or one signed with a non-HMAC method, is refused with the
      single sign-in message, not a distinct error. */
  lemma BadTokenRejected(tok: string, parse: string -> ParsedToken)
    requires ' ' !in tok
    requires parse(tok).Parsed? && !(IsHmac(parse(tok).alg) && parse(tok).verified)
    ensures VerifyToken(BearerHeader(tok), parse) == Rejected(SignInMessage)
  {
    SecondFieldOfBearer(tok);
    assert HasPrefix(BearerHeader(tok), BearerPrefix);
  }

  /** The header "Bearer" with nothing after it passes the prefix check and then panics. */
  lemma BareBearerPanics(parse: string -> ParsedToken)
    ensures VerifyToken(BearerPrefix, parse) == Panicked
  {
    assert HasPrefix(BearerPrefix, BearerPrefix);
  }
}
