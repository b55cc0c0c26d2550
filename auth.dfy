/**
 * Bearer-token authentication (middleware/auth.middleware.js). The token is the second field
 * of the Authorization header split on single spaces; token verification (`jwt.verify` with the
 * server's secret) is a parameter: a function from a token to its payload, or None when the
 * token is invalid or expired.
 */
module Auth {
  import opened Common
  import opened Store

  /** `String.prototype.split(' ')`: the fields between single spaces, empty fields included. */
  function Split(s: string): (fields: seq<string>)
    ensures |fields| >= 1
    ensures forall i :: 0 <= i < |fields| ==> ' ' !in fields[i]
  {
    if s == [] then [""]
    else
      var rest := Split(s[1..]);
      if s[0] == ' ' then [""] + rest
      else
        assert forall i :: 1 <= i < |rest| ==> rest[1..][i - 1] == rest[i];
        [[s[0]] + rest[0]] + rest[1..]
  }

  /** The inverse of Split: the fields joined with single spaces. */
  function Join(fields: seq<string>): string
    requires |fields| >= 1
  {
    if |fields| == 1 then fields[0] else fields[0] + " " + Join(fields[1..])
  }

  /** Splitting and joining again gives back the header. */
  lemma {:induction false} JoinSplit(s: string)
    ensures Join(Split(s)) == s
  {
    if s != [] {
      JoinSplit(s[1..]);
      var rest := Split(s[1..]);
      if s[0] == ' ' {
        assert ([""] + rest)[1..] == rest;
      } else {
        var fields := [[s[0]] + rest[0]] + rest[1..];
        if |rest| > 1 {
          assert fields[1..] == rest[1..];
          assert Join(rest) == rest[0] + " " + Join(rest[1..]);
        }
        assert s == [s[0]] + s[1..];
      }
    }
  }

  /** A word without spaces at the front joins the first field of what follows. */
  lemma {:induction false} SplitWord(w: string, rest: string)
    requires ' ' !in w
    ensures Split(w + rest) == [w + Split(rest)[0]] + Split(rest)[1..]
  {
    var fields := Split(rest);
    if w == [] {
      assert w + rest == rest && w + fields[0] == fields[0];
      assert fields == [fields[0]] + fields[1..];
    } else {
      assert w[0] in w;
      assert (w + rest)[1..] == w[1..] + rest;
      SplitWord(w[1..], rest);
      var after := Split(w[1..] + rest);
      assert after == [w[1..] + fields[0]] + fields[1..];
      assert after[0] == w[1..] + fields[0] && after[1..] == fields[1..];
      assert [w[0]] + (w[1..] + fields[0]) == w + fields[0];
    }
  }

  /**
   * The token of auth.middleware.js:5, None when it is falsy: no header, an empty header, no
   * second field, or an empty second field.
   */
  function TokenOf(header: Option<string>): (token: Option<string>)
    ensures token.Some? ==> token.value != "" && ' ' !in token.value
  {
    if header.None? || header.value == "" then None
    else
      var fields := Split(header.value);
      if |fields| < 2 || fields[1] == "" then None else Some(fields[1])
  }

  /**
   * A header made of a scheme word, one space, a non-empty token and then nothing or a space-led
   * remainder yields that token.
   */
  lemma BearerToken(scheme: string, token: string, rest: string)
    requires ' ' !in scheme && ' ' !in token && token != ""
    requires rest == [] || rest[0] == ' '
    ensures TokenOf(Some(scheme + " " + token + rest)) == Some(token)
  {
    var tail := token + rest;
    SplitWord(token, rest);
    if rest != [] {
      assert Split(rest) == [""] + Split(rest[1..]);
    }
    assert Split(tail)[0] == token;
    assert scheme + " " + token + rest == scheme + (" " + tail);
    SplitWord(scheme, " " + tail);
    assert (" " + tail)[1..] == tail;
    assert Split(" " + tail) == [""] + Split(tail);
  }

  /** The worked cases: one token, a doubled space, a scheme without a token, and no header. */
  lemma TokenExamples()
    ensures TokenOf(Some("Bearer abc")) == Some("abc")
    ensures TokenOf(Some("Bearer  abc")) == None
    ensures TokenOf(Some("Bearer")) == None
    ensures TokenOf(None) == None
  {
    BearerToken("Bearer", "abc", "");
    assert "Bearer abc" == "Bearer" + " " + "abc" + "";
    SplitWord("Bearer", "  abc");
    assert "Bearer  abc" == "Bearer" + "  abc";
    assert "  abc"[1..] == " abc" && " abc"[1..] == "abc";
    SplitWord("Bearer", "");
    assert "Bearer" == "Bearer" + "";
  }

  /** The user `req.user` is set to from a verified payload (auth.middleware.js:11-14). */
  function RequestUser(payload: TokenPayload): (user: AuthUser)
    ensures user.id == payload.id && user.userType == payload.userType
  {
    AuthUser(payload.id, payload.userType)
  }

  /** The part of an HTTP request the middleware reads and writes. */
  class Request {
    var authorization: Option<string>
    var user: Option<AuthUser>

    constructor (authorization: Option<string>)
      ensures this.authorization == authorization && user == None
    {
      this.authorization := authorization;
      user := None;
    }
  }

  /**
   * The middleware: 401 without a token, before any verification; 403 when verification fails,
   * leaving `req.user` unset; otherwise `req.user` is written and `next()` called.
   */
  method Authenticate(req: Request, verify: string -> Option<TokenPayload>) returns (step: Step)
    modifies req`user
    ensures TokenOf(req.authorization).None? ==> step == Respond(Unauthorized) && req.user == old(req.user)
    ensures TokenOf(req.authorization).Some? && verify(TokenOf(req.authorization).value).None? ==>
      step == Respond(Forbidden) && req.user == old(req.user)
    ensures TokenOf(req.authorization).Some? && verify(TokenOf(req.authorization).value).Some? ==>
      step == Next && req.user == Some(RequestUser(verify(TokenOf(req.authorization).value).value))
  {
    var token := TokenOf(req.authorization);
    if token.None? {
      return Respond(Unauthorized);
    }
    var decoded := verify(token.value);
    if decoded.None? {
      return Respond(Forbidden);
    }
    req.user := Some(RequestUser(decoded.value));
    step := Next;
  }
}
