/**
 The signed confirmation tokens: `body.signature`, both unpadded Base64.

 The JSON printer and parser and the keyed hash are parameters; their only stated property is that
 parsing undoes printing. Times are microseconds in UTC.
 */
module HomeTokens {
  import opened Wrappers
  import opened Base64

  datatype Claims = Claims(
    ownerId: string, operation: string, target: Option<string>, proposalHash: string, stateHash: string,
    expiresAt: int, nonce: string)

  /** JSON printing and parsing of claims, and the HMAC under the secret. */
  datatype Signer = Signer(serialize: Claims -> seq<Byte>, parse: seq<Byte> -> Option<Claims>, mac: string -> seq<Byte>, ttl: int)

  datatype TokenError = BadSignature | Malformed | Expired | OtherOwner | OtherOperation | NotComparable

  function IndexOf(s: string, c: char): (r: Option<nat>)
    ensures r.Some? ==> r.value < |s| && s[r.value] == c && c !in s[..r.value]
    ensures r.None? <==> c !in s
  {
    if s == "" then None
    else if s[0] == c then Some(0)
    else
      match IndexOf(s[1..], c)
      case None => assert s == [s[0]] + s[1..]; None
      case Some(i) => assert s[..i + 1] == [s[0]] + s[1..][..i]; Some(i + 1)
  }

  function Signed(k: Signer, encoded: string): string {
    encoded + "." + Encode(k.mac(encoded))
  }

  /** `issue`: the claims expire `ttl` after `now`. */
  function Issue(k: Signer, ownerId: string, operation: string, target: Option<string>, proposalHash: string,
                 stateHash: string, nonce: string, now: int): (string, Claims)
  {
    var claims := Claims(ownerId, operation, target, proposalHash, stateHash, now + k.ttl, nonce);
    (Signed(k, Encode(k.serialize(claims))), claims)
  }

  /** The signature check and parse of `verify`; comparing a signature that is not ASCII raises. */
  function Opened(k: Signer, token: string): Result<Claims, TokenError> {
    match IndexOf(token, '.')
    case None => Err(Malformed)
    case Some(i) =>
      var encoded, supplied := token[..i], token[i + 1..];
      if !Ascii(supplied) then Err(Malformed)
      else if supplied != Encode(k.mac(encoded)) then Err(BadSignature)
      else
        match Decode(encoded)
        case Err(_) => Err(Malformed)
        case Ok(bytes) =>
          match k.parse(bytes)
          case None => Err(Malformed)
          case Some(claims) => Ok(claims)
  }

  /** The checks on the claims, in order. */
  function Checked(claims: Claims, ownerId: string, operation: Option<string>, now: int): Result<Claims, TokenError> {
    if claims.expiresAt <= now then Err(Expired)
    else if !Ascii(claims.ownerId) || !Ascii(ownerId) then Err(NotComparable)
    else if claims.ownerId != ownerId then Err(OtherOwner)
    else if operation.Some? && claims.operation != operation.value then Err(OtherOperation)
    else Ok(claims)
  }

  function Verify(k: Signer, token: string, ownerId: string, operation: Option<string>, now: int): Result<Claims, TokenError> {
    match Opened(k, token)
    case Err(e) => Err(e)
    case Ok(claims) => Checked(claims, ownerId, operation, now)
  }

  // ---------------------------------------------------------------- a token opens to what was signed

  lemma FirstDot(a: string, b: string)
    requires '.' !in a
    ensures IndexOf(a + "." + b, '.') == Some(|a|)
    ensures (a + "." + b)[..|a|] == a && (a + "." + b)[|a| + 1..] == b
  {
    var s := a + "." + b;
    assert s[|a|] == '.';
    var i := IndexOf(s, '.').value;
    assert forall j | 0 <= j < |a| :: s[j] == a[j] && a[j] in a;
    assert forall j | 0 <= j < i :: s[..i][j] == s[j] && s[j] != '.';
  }

  lemma SplitToken(token: string)
    requires IndexOf(token, '.').Some?
    ensures var i := IndexOf(token, '.').value; token == token[..i] + "." + token[i + 1..]
  {
  }

  /** An issued token opens to exactly the issued claims. */
  lemma OpensIssued(k: Signer, claims: Claims)
    requires k.parse(k.serialize(claims)) == Some(claims)
    ensures Opened(k, Signed(k, Encode(k.serialize(claims)))) == Ok(claims)
  {
    hide Encode, Decode;
    var encoded := Encode(k.serialize(claims));
    Repadded(k.serialize(claims));
    Repadded(k.mac(encoded));
    RoundTrip(k.serialize(claims));
    FirstDot(encoded, Encode(k.mac(encoded)));
  }

  /**
   Verifying an issued token: with an ASCII owner, it returns the issued claims exactly when it is
   before `now + ttl`, presented by that owner and for that operation; otherwise the first of these
   that fails is the error.
   */
  lemma VerifyIssued(k: Signer, ownerId: string, operation: string, target: Option<string>, proposalHash: string,
                     stateHash: string, nonce: string, now: int, byOwner: string, forOperation: Option<string>, at: int)
    requires var c := Issue(k, ownerId, operation, target, proposalHash, stateHash, nonce, now).1;
             k.parse(k.serialize(c)) == Some(c)
    requires Ascii(ownerId) && Ascii(byOwner)
    ensures
      var (token, claims) := Issue(k, ownerId, operation, target, proposalHash, stateHash, nonce, now);
      Verify(k, token, byOwner, forOperation, at)
      == if at >= now + k.ttl then Err(Expired)
         else if byOwner != ownerId then Err(OtherOwner)
         else if forOperation != None && forOperation != Some(operation) then Err(OtherOperation)
         else Ok(Claims(ownerId, operation, target, proposalHash, stateHash, now + k.ttl, nonce))
  {
    hide Encode, Opened, Signed;
    var (token, claims) := Issue(k, ownerId, operation, target, proposalHash, stateHash, nonce, now);
    OpensIssued(k, claims);
  }

  // ---------------------------------------------------------------- nothing else opens

  /** A token opens only as a body followed by exactly its own signature. */
  lemma OpensOnlySigned(k: Signer, token: string)
    requires Opened(k, token).Ok?
    ensures exists encoded :: '.' !in encoded && token == Signed(k, encoded)
                              && Decode(encoded).Ok? && k.parse(Decode(encoded).value) == Some(Opened(k, token).value)
  {
    hide Encode, Decode;
    var i := IndexOf(token, '.').value;
    SplitToken(token);
    assert token == Signed(k, token[..i]);
  }

  /** Why a text is not opened: no dot or a signature outside ASCII is malformed, any other signature is bad. */
  lemma WhyNotOpened(k: Signer, token: string, encoded: string, supplied: string)
    ensures '.' !in token ==> Opened(k, token) == Err(Malformed)
    ensures token == encoded + "." + supplied && '.' !in encoded ==>
              && (!Ascii(supplied) ==> Opened(k, token) == Err(Malformed))
              && (Ascii(supplied) && supplied != Encode(k.mac(encoded)) ==> Opened(k, token) == Err(BadSignature))
  {
    hide Encode, Decode, Ascii;
    if '.' !in encoded { FirstDot(encoded, supplied); }
  }

  /** Owners outside ASCII cannot be compared; that is found before they are told apart, and after expiry. */
  lemma OwnersCompared(k: Signer, token: string, ownerId: string, operation: Option<string>, now: int)
    requires Opened(k, token).Ok? && !(Ascii(Opened(k, token).value.ownerId) && Ascii(ownerId))
    ensures Verify(k, token, ownerId, operation, now)
         == Err(if Opened(k, token).value.expiresAt <= now then Expired else NotComparable)
  {
    hide Opened, Ascii;
  }

  /**
   Signatures cannot be moved: a token that carries the signature of another body opens only if the
   two bodies have the same MAC; with an injective MAC it is that very token.
   */
  lemma SignatureBinds(k: Signer, encoded: string, other: string)
    requires '.' !in encoded && Opened(k, encoded + "." + Encode(k.mac(other))).Ok?
    ensures k.mac(encoded) == k.mac(other)
  {
    hide Encode, Decode;
    FirstDot(encoded, Encode(k.mac(other)));
    EncodeInjective(k.mac(encoded), k.mac(other));
  }

  /**
   With an unforgeable MAC only issued claims are accepted: if every text whose signature a presenter
   can show is the body of an issued token, what `Verify` returns was issued.
   */
  lemma OnlyIssuedIsAccepted(k: Signer, issued: set<Claims>, token: string, ownerId: string, operation: Option<string>, now: int)
    requires forall c | c in issued :: k.parse(k.serialize(c)) == Some(c)
    requires forall encoded | token == Signed(k, encoded) :: exists c :: c in issued && encoded == Encode(k.serialize(c))
    requires Verify(k, token, ownerId, operation, now).Ok?
    ensures Verify(k, token, ownerId, operation, now).value in issued
    ensures var c := Verify(k, token, ownerId, operation, now).value;
            c.ownerId == ownerId && now < c.expiresAt && (operation.Some? ==> c.operation == operation.value)
  {
    hide Encode, Decode, Opened, Signed;
    OpensOnlySigned(k, token);
    var encoded :| '.' !in encoded && token == Signed(k, encoded) && Decode(encoded).Ok?
                   && k.parse(Decode(encoded).value) == Some(Opened(k, token).value);
    var c :| c in issued && encoded == Encode(k.serialize(c));
    RoundTrip(k.serialize(c));
  }
}
