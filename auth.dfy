/** The `verifyToken` middleware in front of every `/api` route: parsing of the
    `Authorization` header (a simplified form of the Bearer scheme of section 2.1
    of RFC 6750) and `getEmail`, which asks the JWT library to verify the token. */
module Auth {
  import opened Values

  predicate Spaceless(s: string) {
    ' ' !in s
  }

  /** Pieces glued back together with single spaces. */
  function Join(pieces: seq<string>): string
    requires |pieces| >= 1
  {
    if |pieces| == 1 then pieces[0] else pieces[0] + " " + Join(pieces[1..])
  }

  /** `s.split(" ")`: the maximal space-free runs between single spaces, empty ones
      included (`"".split(" ")` is `[""]`, `"a  b".split(" ")` is `["a", "", "b"]`). */
  function Split(s: string): (pieces: seq<string>)
    ensures |pieces| >= 1
    ensures forall i :: 0 <= i < |pieces| ==> Spaceless(pieces[i])
    ensures Join(pieces) == s
  {
    if s == [] then [""]
    else if s[0] == ' ' then
      var rest := Split(s[1..]);
      assert Join([""] + rest) == "" + " " + Join(rest) by { assert ([""] + rest)[1..] == rest; }
      [""] + rest
    else
      var rest := Split(s[1..]);
      var pieces := [[s[0]] + rest[0]] + rest[1..];
      assert s == [s[0]] + s[1..];
      if |rest| == 1 then pieces
      else
        assert pieces[1..] == rest[1..];
        assert Join(rest) == rest[0] + " " + Join(rest[1..]);
        pieces
  }

  /** Splitting a space-free word gives just that word. */
  lemma {:induction false} SplitWord(w: string)
    requires Spaceless(w)
    ensures Split(w) == [w]
  {
    if w != [] {
      assert Spaceless(w[1..]) by { assert forall c :: c in w[1..] ==> c in w; }
      SplitWord(w[1..]);
      assert [w[0]] + w[1..] == w;
    }
  }

  /** A space-free word followed by a space splits off as the first piece. */
  lemma {:induction false} SplitWordThenRest(w: string, t: string)
    requires Spaceless(w)
    ensures Split(w + " " + t) == [w] + Split(t)
  {
    var s := w + " " + t;
    if w == [] {
      assert s == " " + t && s[1..] == t;
    } else {
      assert Spaceless(w[1..]) by { assert forall c :: c in w[1..] ==> c in w; }
      assert s[0] == w[0] && s[1..] == w[1..] + " " + t;
      SplitWordThenRest(w[1..], t);
      assert [w[0]] + w[1..] == w;
    }
  }

  /** Split and Join are inverse: joining space-free pieces and splitting again
      gives the pieces back. */
  lemma {:induction false} SplitJoin(pieces: seq<string>)
    requires |pieces| >= 1
    requires forall i :: 0 <= i < |pieces| ==> Spaceless(pieces[i])
    ensures Split(Join(pieces)) == pieces
  {
    if |pieces| == 1 {
      SplitWord(pieces[0]);
    } else {
      SplitJoin(pieces[1..]);
      SplitWordThenRest(pieces[0], Join(pieces[1..]));
    }
  }

  /** Outcome of the header checks before the token is verified. */
  datatype HeaderCheck = MissingHeader | MalformedHeader | BearerToken(token: string)

  /** `const [bearer, token] = authHeader.split(" ")` after the `!authHeader` test:
      the first piece must be exactly "Bearer" and the second must be truthy. */
  function ParseAuthorization(header: Option<string>): (r: HeaderCheck)
    ensures r.BearerToken? ==> Truthy(header) && r.token != "" && Spaceless(r.token) && r.token != header.value
  {
    if !Truthy(header) then MissingHeader
    else
      var pieces := Split(header.value);
      if pieces[0] != "Bearer" || |pieces| < 2 || pieces[1] == "" then MalformedHeader
      else BearerToken(pieces[1])
  }

  /** The header starts with "Bearer ", then the non-empty space-free token, then
      either its end or another space. */
  predicate CarriesBearer(h: string, t: string) {
    && t != "" && Spaceless(t)
    && |h| >= 7 + |t|
    && h[..7] == "Bearer "
    && h[7..7 + |t|] == t
    && (|h| == 7 + |t| || h[7 + |t|] == ' ')
  }

  /** An accepted header carries its token after "Bearer ". */
  lemma {:induction false} AcceptedHeaderCarriesToken(h: string, t: string)
    requires ParseAuthorization(Some(h)) == BearerToken(t)
    ensures CarriesBearer(h, t)
  {
    var pieces := Split(h);
    assert pieces[0] == "Bearer" && pieces[1] == t && |pieces| >= 2;
    var tail := Join(pieces[1..]);
    assert h == "Bearer" + " " + tail;
    var after: string;
    if |pieces| == 2 {
      assert tail == t;
      after := "";
    } else {
      assert pieces[1..][1..] == pieces[2..];
      after := " " + Join(pieces[2..]);
      assert tail == t + after;
    }
    assert tail == t + after;
    assert h == "Bearer " + t + after;
    assert h[..7] == "Bearer ";
    assert h[7..7 + |t|] == t;
  }

  /** A header that carries `t` after "Bearer " is accepted with token `t`. */
  lemma {:induction false} CarriedTokenAccepted(h: string, t: string)
    requires CarriesBearer(h, t)
    ensures ParseAuthorization(Some(h)) == BearerToken(t)
  {
    var rest := h[7 + |t|..];
    assert h[..7 + |t|] == h[..7] + h[7..7 + |t|];
    assert h == h[..7 + |t|] + rest;
    assert h == "Bearer" + " " + (t + rest);
    SplitWordThenRest("Bearer", t + rest);
    if rest == [] {
      assert t + rest == t;
      SplitWord(t);
    } else {
      assert t + rest == t + " " + rest[1..];
      SplitWordThenRest(t, rest[1..]);
    }
  }

  /** The header is accepted with token `t` exactly when it carries `t` after "Bearer ". */
  lemma ParseAuthorizationAccepts(h: string, t: string)
    ensures ParseAuthorization(Some(h)) == BearerToken(t) <==> CarriesBearer(h, t)
  {
    if ParseAuthorization(Some(h)) == BearerToken(t) {
      AcceptedHeaderCarriesToken(h, t);
    }
    if CarriesBearer(h, t) {
      CarriedTokenAccepted(h, t);
    }
  }

  /** A missing or empty header is reported as missing; any other header that
      does not carry a token after "Bearer " is malformed. */
  lemma ParseAuthorizationRejects(header: Option<string>)
    ensures ParseAuthorization(header) == MissingHeader <==> !Truthy(header)
    ensures Truthy(header) && ParseAuthorization(header) == MalformedHeader
      ==> forall t :: !CarriesBearer(header.value, t)
  {
    if Truthy(header) && ParseAuthorization(header) == MalformedHeader {
      forall t ensures !CarriesBearer(header.value, t) {
        ParseAuthorizationAccepts(header.value, t);
      }
    }
  }

  /** Two spaces after the scheme leave an empty second piece. */
  lemma DoubleSpaceRejected()
    ensures ParseAuthorization(Some("Bearer  x")) == MalformedHeader
  {
  }

  /** Pieces after the second are ignored. */
  lemma ExtraPieceIgnored()
    ensures ParseAuthorization(Some("Bearer x y")) == BearerToken("x")
  {
    assert "Bearer x y" == "Bearer" + " " + "x y";
    assert "x y" == "x" + " " + "y";
    SplitWordThenRest("Bearer", "x y");
    SplitWordThenRest("x", "y");
    SplitWord("y");
  }

  /** What `jwt.verify(token, secret)` does, as an oracle: it either yields the
      decoded payload's `email` field (possibly undefined) or throws. */
  datatype JwtOutcome = Verified(email: Option<string>) | Rejected(reason: string)

  /** `getEmail`'s result: `{ email }` or `{ error }`; it never throws. */
  datatype EmailOrError = EmailOf(email: Option<string>) | TokenError(error: string)

  function GetEmail(token: string, verify: string -> JwtOutcome): (r: EmailOrError)
    ensures r.EmailOf? ==> verify(token) == Verified(r.email)
    ensures r.TokenError? ==> verify(token).Rejected? && "Error in Verifying Token: " <= r.error
  {
    match verify(token)
    case Verified(email) => EmailOf(email)
    case Rejected(reason) => TokenError("Error in Verifying Token: " + reason)
  }

  /** What the middleware does with a request: answer it itself, or call `next()`
      with `req.email` set. */
  datatype GateOutcome = Answer(status: nat, error: string) | Next(email: Option<string>)

  function Gate(header: Option<string>, verify: string -> JwtOutcome): (r: GateOutcome)
    ensures r.Answer? ==> r.status == 200 || r.status == 401
    ensures r.Next? ==> ParseAuthorization(header).BearerToken?
  {
    match ParseAuthorization(header)
    case MissingHeader => Answer(401, "No Authorization header provided")
    case MalformedHeader => Answer(401, "Invalid Authorization header format")
    case BearerToken(token) =>
      match GetEmail(token, verify)
      // `res.json` without `res.status`: the rejection is sent with status 200
      case TokenError(error) => Answer(200, error)
      case EmailOf(email) => Next(email)
  }

  /** A request reaches the handler exactly when the header carries a bearer token
      that the verifier accepts; the handler then sees the token's email. */
  lemma GateCallsNextOnlyForVerifiedTokens(header: Option<string>, verify: string -> JwtOutcome)
    ensures Gate(header, verify).Next? <==>
      ParseAuthorization(header).BearerToken? && verify(ParseAuthorization(header).token).Verified?
    ensures Gate(header, verify).Next? ==>
      Gate(header, verify).email == verify(ParseAuthorization(header).token).email
    ensures Gate(header, verify).Answer? && ParseAuthorization(header).BearerToken? ==>
      Gate(header, verify).status == 200
    ensures Gate(header, verify).Answer? && !ParseAuthorization(header).BearerToken? ==>
      Gate(header, verify).status == 401
  {
  }
}
