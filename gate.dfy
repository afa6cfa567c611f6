/** `authMiddleware`: the bearer-token gate in front of the complaint routes. */
module Gate {
  import opened Wrappers
  import opened Text
  import opened Records

  const BearerPrefix := "Bearer "

  /** `authHeader.split(" ")[1]`, which is `undefined` when there is no space. */
  function TokenField(header: string): (r: Option<string>)
    ensures r.Some? ==> ' ' !in r.value
    ensures ' ' !in header ==> r.None?
  {
    var parts := Split(header, ' ');
    assert ' ' !in header ==> parts == [header] by {
      if ' ' !in header {
        SplitNoSep(header, ' ');
      }
    }
    Field(parts, 1)
  }

  /**
   * The gate: a missing header or one without the `Bearer ` prefix is
   * refused with 401 "Unauthorized"; otherwise the second space-separated
   * field goes to `jwt.verify`, and a failed verification is refused with
   * 401 "Invalid token". A verified payload becomes the caller identity.
   */
  function Authenticate(header: Option<string>, verify: string -> Option<Identity>): (r: Result<Identity, Response>)
    ensures header.None? || !StartsWith(header.value, BearerPrefix) ==>
              r == Failure(Response(401, Message("Unauthorized")))
    ensures r.Failure? ==> r.error.code == 401
    ensures r.Success? ==>
              && header.Some? && StartsWith(header.value, BearerPrefix)
              && TokenField(header.value).Some? && verify(TokenField(header.value).value) == Some(r.value)
  {
    if header.None? || !StartsWith(header.value, BearerPrefix) then
      Failure(Response(401, Message("Unauthorized")))
    else match TokenField(header.value)
      case None => Failure(Response(401, Message("Invalid token")))
      case Some(token) =>
        match verify(token)
        case None => Failure(Response(401, Message("Invalid token")))
        case Some(who) => Success(who)
  }

  /**
   * On a header with the prefix, the gate's outcome is decided by the
   * longest space-free run `t` after `Bearer `: the identity `jwt.verify`
   * decodes from `t`, or 401 "Invalid token".
   */
  lemma GateOnBearerHeader(header: string, t: string, verify: string -> Option<Identity>)
    requires StartsWith(header, BearerPrefix)
    requires ' ' !in t && StartsWith(header[7..], t)
    requires 7 + |t| == |header| || header[7 + |t|] == ' '
    ensures Authenticate(Some(header), verify) ==
              if verify(t).Some? then Success(verify(t).value)
              else Failure(Response(401, Message("Invalid token")))
  {
    var rest := header[7..];
    assert header == "Bearer" + [' '] + rest;
    SplitAfterPrefix("Bearer", ' ', rest);
    assert Split(rest, ' ')[0] == t;
  }

  /** A token issued by `jwt.sign`, presented as `Bearer <token>`, authenticates as the signed identity. */
  lemma IssuedTokenAuthenticates(c: Crypto, who: Identity)
    requires Sound(c)
    ensures Authenticate(Some(BearerPrefix + c.sign(who)), c.verify) == Success(who)
  {
    var t := c.sign(who);
    var header := BearerPrefix + t;
    StartsWithConcat(BearerPrefix, t);
    assert header == "Bearer" + [' '] + t;
    SplitAfterPrefix("Bearer", ' ', t);
    SplitNoSep(t, ' ');
  }

  /** `Bearer ` with nothing after it passes an empty token to `jwt.verify`, which refuses it. */
  lemma EmptyTokenRefused(c: Crypto)
    requires Sound(c)
    ensures Authenticate(Some(BearerPrefix), c.verify) == Failure(Response(401, Message("Invalid token")))
  {
    assert BearerPrefix == "Bearer" + [' '] + [];
    SplitAfterPrefix("Bearer", ' ', []);
  }
}
