/**
 * The `authenticateToken` middleware: take the second space-separated
 * field of the `Authorization` header as the token, answer 401 when there
 * is none, 403 when it does not verify, and otherwise hand its claims to
 * the route handler.
 */
module Auth {
  import opened Wrappers
  import opened Crypto

  /** `s.split(' ')` in JavaScript: the (possibly empty) fields between single spaces. */
  function Split(s: string): (fields: seq<string>)
    ensures |fields| >= 1
    ensures forall i :: 0 <= i < |fields| ==> ' ' !in fields[i]
  {
    if s == [] then [[]]
    else if s[0] == ' ' then [[]] + Split(s[1..])
    else
      var rest := Split(s[1..]);
      [[s[0]] + rest[0]] + rest[1..]
  }

  /** `fields.join(' ')`, the inverse of `Split`. */
  function Join(fields: seq<string>): string
    requires |fields| >= 1
  {
    if |fields| == 1 then fields[0] else fields[0] + " " + Join(fields[1..])
  }

  /** Gluing a prefix onto the first field glues it onto the joined string. */
  lemma {:induction false} JoinPrefixFirst(w: string, fields: seq<string>)
    requires |fields| >= 1
    ensures Join([w + fields[0]] + fields[1..]) == w + Join(fields)
  {
    var glued := [w + fields[0]] + fields[1..];
    if |fields| == 1 {
      assert Join(glued) == w + fields[0];
    } else {
      var rest := Join(fields[1..]);
      assert glued[1..] == fields[1..];
      assert Join(glued) == (w + fields[0]) + " " + rest;
      assert Join(fields) == fields[0] + " " + rest;
    }
  }

  /** Splitting loses nothing: joining the fields gives back the header. */
  lemma {:induction false} JoinSplit(s: string)
    ensures Join(Split(s)) == s
  {
    if s == [] {
    } else if s[0] == ' ' {
      JoinSplit(s[1..]);
      assert ([[]] + Split(s[1..]))[1..] == Split(s[1..]);
    } else {
      JoinSplit(s[1..]);
      JoinPrefixFirst([s[0]], Split(s[1..]));
      assert s == [s[0]] + s[1..];
    }
  }

  /** A word without spaces glues onto the first field of what follows it. */
  lemma {:induction false} SplitWordPrefix(w: string, s: string)
    requires ' ' !in w
    ensures Split(w + s) == [w + Split(s)[0]] + Split(s)[1..]
  {
    if w == [] {
      assert w + s == s;
      assert w + Split(s)[0] == Split(s)[0];
      assert [Split(s)[0]] + Split(s)[1..] == Split(s);
    } else {
      SplitWordPrefix(w[1..], s);
      assert (w + s)[0] == w[0];
      assert (w + s)[1..] == w[1..] + s;
      assert [w[0]] + (w[1..] + Split(s)[0]) == w + Split(s)[0];
    }
  }

  /** Splitting recovers any list of space-free fields from their join. */
  lemma {:induction false} SplitJoin(fields: seq<string>)
    requires |fields| >= 1
    requires forall i :: 0 <= i < |fields| ==> ' ' !in fields[i]
    ensures Split(Join(fields)) == fields
  {
    if |fields| == 1 {
      SplitWordPrefix(fields[0], []);
      assert fields[0] + [] == fields[0];
    } else {
      var tail := Join(fields[1..]);
      SplitJoin(fields[1..]);
      assert Split(" " + tail) == [[]] + fields[1..] by {
        assert (" " + tail)[1..] == tail;
      }
      SplitWordPrefix(fields[0], " " + tail);
      assert Join(fields) == fields[0] + (" " + tail);
      assert fields[0] + [] == fields[0];
      assert ([[]] + fields[1..])[1..] == fields[1..];
    }
  }

  /**
   * `authHeader && authHeader.split(' ')[1]`, kept only when it is truthy:
   * the header must be present and its second field non-empty.
   */
  function BearerToken(header: Option<string>): (token: Option<string>)
    ensures token.Some? ==> token.value != [] && ' ' !in token.value
    ensures header.None? ==> token.None?
  {
    match header
    case None => None
    case Some(h) =>
      var fields := Split(h);
      if |fields| >= 2 && fields[1] != [] then Some(fields[1]) else None
  }

  /** A header with no space in it carries no token. */
  lemma NoSpaceNoToken(h: string)
    requires ' ' !in h
    ensures BearerToken(Some(h)) == None
  {
    SplitJoin([h]);
  }

  /**
   * `scheme token` yields `token`, whatever the scheme word is: the
   * middleware does not check that it reads `Bearer`.
   */
  lemma BearerTokenOf(scheme: string, token: string)
    requires ' ' !in scheme && ' ' !in token && token != []
    ensures BearerToken(Some(scheme + " " + token)) == Some(token)
  {
    SplitJoin([scheme, token]);
    assert Join([scheme, token]) == scheme + " " + token;
  }

  /** `authenticateToken`: 401, then 403, then the verified claims. */
  function Authenticate(k: Primitives, header: Option<string>): (r: Result<Claims>)
    ensures r == Err(TokenRequired) <==> BearerToken(header).None?
    ensures r == Err(InvalidToken) <==> BearerToken(header).Some? && k.verify(BearerToken(header).value).None?
    ensures r.Ok? ==> Some(r.value) == k.verify(BearerToken(header).value)
    ensures r.Err? ==> r.failure in {TokenRequired, InvalidToken}
  {
    match BearerToken(header)
    case None => Err(TokenRequired)
    case Some(token) =>
      match k.verify(token)
      case None => Err(InvalidToken)
      case Some(claims) => Ok(claims)
  }

  /** A missing header, or one with no space, is refused with 401. */
  lemma MissingTokenIs401(k: Primitives, header: Option<string>)
    requires header.None? || ' ' !in header.value
    ensures Authenticate(k, header) == Err(TokenRequired)
  {
    if header.Some? {
      NoSpaceNoToken(header.value);
    }
  }

  /** A header carrying a token the server signed authenticates as the signed claims. */
  lemma SignedTokenAuthenticates(k: Primitives, scheme: string, c: Claims)
    requires Sound(k) && ' ' !in scheme
    ensures Authenticate(k, Some(scheme + " " + k.sign(c))) == Ok(c)
  {
    BearerTokenOf(scheme, k.sign(c));
  }
}
