/**
 * Backend/src/middlewares/authFromParent.js: find a token in the request
 * with a fixed precedence, decode it without verifying a signature, and
 * always let the request continue.
 */
module AuthFromParent {

  import opened Wrappers

  /**
   * The request values the extractor reads; `None` is an absent value.
   * `authorizationAlt` is the `Authorization` spelling of the header key.
   */
  datatype Request = Request(
    authorization: Option<string>,
    authorizationAlt: Option<string>,
    accessToken: Option<string>,
    queryToken: Option<string>,
    bodyToken: Option<string>)

  /** JavaScript truthiness of an optional string. */
  predicate Truthy(v: Option<string>) {
    v.Some? && v.value != ""
  }

  /** `a || b` on optional strings. */
  function Or(a: Option<string>, b: Option<string>): (r: Option<string>)
    ensures Truthy(a) ==> r == a
    ensures !Truthy(a) ==> r == b
  {
    if Truthy(a) then a else b
  }

  /** `String.prototype.split(sep)` for a one-character separator. */
  function Split(s: string, sep: char): (parts: seq<string>)
    ensures |parts| >= 1
    ensures forall i :: 0 <= i < |parts| ==> sep !in parts[i]
  {
    if |s| == 0 then [""]
    else if s[0] == sep then [""] + Split(s[1..], sep)
    else
      var rest := Split(s[1..], sep);
      [[s[0]] + rest[0]] + rest[1..]
  }

  /** `Array.prototype.join(sep)`. */
  function Join(parts: seq<string>, sep: char): string
    requires |parts| >= 1
  {
    if |parts| == 1 then parts[0] else parts[0] + [sep] + Join(parts[1..], sep)
  }

  /** Joining the pieces of a split gives back the string. */
  lemma {:induction false} SplitJoin(s: string, sep: char)
    ensures Join(Split(s, sep), sep) == s
    decreases |s|
  {
    if |s| > 0 {
      SplitJoin(s[1..], sep);
      var rest := Split(s[1..], sep);
      if s[0] == sep {
        assert ([""] + rest)[1..] == rest;
        assert s == [sep] + s[1..];
      } else {
        var parts := [[s[0]] + rest[0]] + rest[1..];
        if |rest| == 1 {
          assert s == [s[0]] + s[1..];
        } else {
          assert parts[1..] == rest[1..];
          assert Join(rest, sep) == rest[0] + [sep] + Join(rest[1..], sep);
          assert s == [s[0]] + s[1..];
        }
      }
    }
  }

  /** A string without the separator splits into itself alone. */
  lemma {:induction false} SplitNoSep(s: string, sep: char)
    requires sep !in s
    ensures Split(s, sep) == [s]
    decreases |s|
  {
    if |s| > 0 {
      SplitNoSep(s[1..], sep);
      assert s == [s[0]] + s[1..];
    }
  }

  /** A separator after a piece free of it starts the next piece. */
  lemma {:induction false} SplitAt(a: string, b: string, sep: char)
    requires sep !in a
    ensures Split(a + [sep] + b, sep) == [a] + Split(b, sep)
    decreases |a|
  {
    if |a| == 0 {
      assert a + [sep] + b == [sep] + b;
      assert ([sep] + b)[1..] == b;
    } else {
      SplitAt(a[1..], b, sep);
      assert (a + [sep] + b)[1..] == a[1..] + [sep] + b;
      assert a == [a[0]] + a[1..];
    }
  }

  /** ASCII case folding, as a case-insensitive regular expression applies it to Latin letters. */
  function Lower(c: char): char {
    if 'A' <= c <= 'Z' then (c as int + 32) as char else c
  }

  /** `/^Bearer$/i.test(word)`. */
  predicate IsBearer(word: string) {
    |word| == 6 && forall i :: 0 <= i < 6 ==> Lower(word[i]) == "bearer"[i]
  }

  /** The token of a `Bearer <token>` header: exactly two space-separated parts. */
  function ParseBearer(header: string): (r: Option<string>)
    ensures r.Some? ==> ' ' !in r.value
  {
    var parts := Split(header, ' ');
    if |parts| == 2 && IsBearer(parts[0]) then Some(parts[1]) else None
  }

  /** A Bearer word (any letter case), one space and a token without spaces parse to that token. */
  lemma ParseBearerAccepts(scheme: string, t: string)
    requires IsBearer(scheme) && ' ' !in t
    ensures ParseBearer(scheme + " " + t) == Some(t)
  {
    assert ' ' !in scheme by {
      forall i | 0 <= i < |scheme| ensures scheme[i] != ' ' {
        assert Lower(scheme[i]) == "bearer"[i];
      }
    }
    SplitAt(scheme, t, ' ');
    SplitNoSep(t, ' ');
    assert scheme + " " + t == scheme + [' '] + t;
  }

  /**
   * Conversely, every header that parses has that shape: a Bearer word,
   * one space and the token, with no other space.
   */
  lemma ParseBearerOnlyBearer(header: string)
    requires ParseBearer(header).Some?
    ensures exists scheme :: IsBearer(scheme) && ' ' !in scheme && header == scheme + " " + ParseBearer(header).value
  {
    var parts := Split(header, ' ');
    SplitJoin(header, ' ');
    assert parts[1..] == [parts[1]];
    assert header == parts[0] + " " + parts[1];
  }

  /**
   * `extractTokenFromReq`: a well-formed Bearer header, then
   * `x-access-token`, then `query.token`, then `body.token`, else null
   * (`None`). A header that is present but malformed is skipped.
   */
  function ExtractToken(req: Request): (r: Option<string>)
    ensures r.Some? ==> r.value != "" || ParseBearer(Or(req.authorization, req.authorizationAlt).GetOr("")).Some?
  {
    var header := Or(req.authorization, req.authorizationAlt);
    var bearer := if Truthy(header) then ParseBearer(header.value) else None;
    if bearer.Some? then bearer
    else if Truthy(req.accessToken) then req.accessToken
    else if Truthy(req.queryToken) then req.queryToken
    else if Truthy(req.bodyToken) then req.bodyToken
    else None
  }

  /** A well-formed Bearer header wins over every other source. */
  lemma BearerFirst(req: Request, scheme: string, t: string)
    requires IsBearer(scheme) && ' ' !in t
    requires req.authorization == Some(scheme + " " + t)
    ensures ExtractToken(req) == Some(t)
  {
    ParseBearerAccepts(scheme, t);
  }

  /**
   * A malformed header is not an error: extraction falls through to the
   * other sources exactly as if there were no header at all.
   */
  lemma MalformedFallsThrough(req: Request)
    requires Truthy(Or(req.authorization, req.authorizationAlt))
    requires ParseBearer(Or(req.authorization, req.authorizationAlt).value).None?
    ensures ExtractToken(req) == ExtractToken(req.(authorization := None, authorizationAlt := None))
  {
  }

  /**
   * The fallback order: without a usable header, `x-access-token` beats the
   * query, and the query beats the body; with nothing truthy the result is
   * null.
   */
  lemma FallbackOrder(req: Request)
    requires !Truthy(req.authorization) && !Truthy(req.authorizationAlt)
    ensures Truthy(req.accessToken) ==> ExtractToken(req) == req.accessToken
    ensures !Truthy(req.accessToken) && Truthy(req.queryToken) ==> ExtractToken(req) == req.queryToken
    ensures !Truthy(req.accessToken) && !Truthy(req.queryToken) && Truthy(req.bodyToken) ==> ExtractToken(req) == req.bodyToken
    ensures !Truthy(req.accessToken) && !Truthy(req.queryToken) && !Truthy(req.bodyToken) ==> ExtractToken(req) == None
  {
  }

  /**
   * `Bearer ` with nothing after the space is well formed and yields the
   * empty token, so the other sources are not consulted and the request
   * carries no user.
   */
  lemma EmptyBearerStops(req: Request)
    requires req.authorization == Some("Bearer ")
    ensures ExtractToken(req) == Some("")
    ensures forall decode: string -> Decoded :: Middleware(req, decode) == Passed(None)
  {
    assert IsBearer("Bearer") by {
      forall i | 0 <= i < 6 ensures Lower("Bearer"[i]) == "bearer"[i] {
      }
    }
    ParseBearerAccepts("Bearer", "");
    assert "Bearer" + " " + "" == "Bearer ";
    assert Or(req.authorization, req.authorizationAlt) == Some("Bearer ");
  }

  /** What `jwt.decode` gives: an object payload, a non-object value (or null), or an exception. */
  datatype Decoded = ObjectPayload(claims: map<string, string>) | Malformed | Throws

  /** `next()` is always called; `user` is what `req.user` is left as. */
  datatype Passage = Passed(user: Option<map<string, string>>)

  /**
   * The middleware, with `jwt.decode` as a parameter. It never rejects a
   * request: without a token, or with one that does not decode to an
   * object, the user stays unset.
   */
  function Middleware(req: Request, decode: string -> Decoded): (r: Passage)
    ensures r.user.Some? <==> (ExtractToken(req).Some? && ExtractToken(req).value != ""
                                && decode(ExtractToken(req).value).ObjectPayload?)
    ensures r.user.Some? ==> r.user.value == decode(ExtractToken(req).value).claims
  {
    match ExtractToken(req)
    case None => Passed(None)
    case Some(token) =>
      if token == "" then Passed(None)
      else match decode(token)
        case ObjectPayload(claims) => Passed(Some(claims))
        case Malformed => Passed(None)
        case Throws => Passed(None)
  }

  /** Without any token the user is unset whatever the decoder would say. */
  lemma NoTokenNoUser(req: Request, decode: string -> Decoded)
    requires ExtractToken(req).None?
    ensures Middleware(req, decode) == Passed(None)
  {
  }
}
