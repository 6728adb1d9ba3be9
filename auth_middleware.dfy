/** The authentication middleware (middleware/authMiddleware.js).

    The token is the second piece of `Authorization` split on single spaces.
    Signature checking (`jwt.verify`) is a parameter: it yields the decoded
    payload or nothing. */
module AuthMiddleware {
  import opened Common

  /** The JWT payload the login route signs: the user's id and name. */
  datatype Claims = Claims(id: Id, username: string)

  datatype AuthOutcome =
    | Unauthorized      // 401: no token in the header
    | Forbidden         // 403: the token does not verify
    | Authenticated(user: Claims)
  {
    function Status(): nat {
      match this
      case Unauthorized => 401
      case Forbidden => 403
      case Authenticated(_) => 200
    }
  }

  /** `s.split(sep)` in JavaScript: the pieces between separators, empty
      pieces included; there is always at least one piece. */
  function Split(s: string, sep: char): (r: seq<string>)
    ensures |r| >= 1
    ensures forall i | 0 <= i < |r| :: sep !in r[i]
  {
    if s == [] then [""]
    else if s[0] == sep then [""] + Split(s[1..], sep)
    else
      var rest := Split(s[1..], sep);
      [[s[0]] + rest[0]] + rest[1..]
  }

  /** `pieces.join(sep)`. */
  function Join(pieces: seq<string>, sep: char): string
    requires |pieces| >= 1
  {
    if |pieces| == 1 then pieces[0] else pieces[0] + [sep] + Join(pieces[1..], sep)
  }

  /** Joining the pieces gives back the header. */
  lemma {:induction false} JoinSplit(s: string, sep: char)
    ensures Join(Split(s, sep), sep) == s
  {
    if s == [] {
    } else if s[0] == sep {
      JoinSplit(s[1..], sep);
      assert s == [sep] + s[1..];
    } else {
      var rest := Split(s[1..], sep);
      JoinSplit(s[1..], sep);
      if |rest| == 1 {
        assert s == [s[0]] + rest[0];
      } else {
        assert Join(rest, sep) == rest[0] + [sep] + Join(rest[1..], sep);
        assert ([[s[0]] + rest[0]] + rest[1..])[1..] == rest[1..];
        assert s == [s[0]] + s[1..];
      }
    }
  }

  /** Splitting pieces that contain no separator gives the pieces back. */
  lemma {:induction false} SplitJoin(pieces: seq<string>, sep: char)
    requires |pieces| >= 1
    requires forall i | 0 <= i < |pieces| :: sep !in pieces[i]
    ensures Split(Join(pieces, sep), sep) == pieces
  {
    if |pieces| == 1 {
      SplitNoSep(pieces[0], sep);
    } else {
      SplitJoin(pieces[1..], sep);
      SplitPrefix(pieces[0], Join(pieces[1..], sep), sep);
      assert pieces == [pieces[0]] + pieces[1..];
    }
  }

  lemma {:induction false} SplitNoSep(w: string, sep: char)
    requires sep !in w
    ensures Split(w, sep) == [w]
  {
    if w != [] {
      SplitNoSep(w[1..], sep);
      assert w == [w[0]] + w[1..];
    }
  }

  lemma {:induction false} SplitPrefix(w: string, t: string, sep: char)
    requires sep !in w
    ensures Split(w + [sep] + t, sep) == [w] + Split(t, sep)
  {
    if w == [] {
      assert w + [sep] + t == [sep] + t;
      assert ([sep] + t)[1..] == t;
    } else {
      SplitPrefix(w[1..], t, sep);
      assert (w + [sep] + t)[1..] == w[1..] + [sep] + t;
      assert w == [w[0]] + w[1..];
    }
  }

  /** A string splits into two or more pieces exactly when it holds the
      separator. */
  lemma {:induction false} SplitMany(s: string, sep: char)
    ensures |Split(s, sep)| >= 2 <==> sep in s
  {
    if s != [] && s[0] != sep {
      SplitMany(s[1..], sep);
      assert s == [s[0]] + s[1..];
    }
  }

  /** `req.headers.authorization?.split(" ")[1]`: there is a second piece
      exactly when the header holds a space. */
  function ExtractToken(header: Option<string>): (token: Option<string>)
    ensures token.Some? <==> header.Some? && ' ' in header.value
    ensures token.Some? ==> ' ' !in token.value
  {
    if header.None? then None
    else
      var pieces := Split(header.value, ' ');
      SplitMany(header.value, ' ');
      if |pieces| >= 2 then Some(pieces[1]) else None
  }

  /** The token is the piece between the first and the second space,
      whatever follows the second space. */
  lemma SecondPiece(scheme: string, token: string, rest: string)
    requires ' ' !in scheme && ' ' !in token
    requires rest == [] || rest[0] == ' '
    ensures ExtractToken(Some(scheme + " " + token + rest)) == Some(token)
  {
    SplitPrefix(scheme, token + rest, ' ');
    assert scheme + " " + token + rest == scheme + [' '] + (token + rest);
    if rest == [] {
      assert token + rest == token;
      SplitNoSep(token, ' ');
    } else {
      SplitPrefix(token, rest[1..], ' ');
      assert token + rest == token + [' '] + rest[1..];
    }
  }

  /** A `Bearer <token>` header yields exactly the token. */
  lemma BearerToken(scheme: string, token: string)
    requires ' ' !in scheme && ' ' !in token
    ensures ExtractToken(Some(scheme + " " + token)) == Some(token)
  {
    SplitJoin([scheme, token], ' ');
    assert Join([scheme, token], ' ') == scheme + " " + token;
  }

  /** A header with no space carries no token. */
  lemma NoSpaceNoToken(header: string)
    requires ' ' !in header
    ensures ExtractToken(Some(header)) == None
  {
    SplitNoSep(header, ' ');
  }

  /** `authMiddleware`: no (or an empty) token stops the request with 401, a
      token that fails verification with 403; otherwise `req.user` is the
      decoded payload and the chain goes on. */
  function Authenticate(header: Option<string>, verify: string -> Option<Claims>): (r: AuthOutcome)
    ensures r == Unauthorized <==> !Present(ExtractToken(header))
    ensures r == Forbidden <==> Present(ExtractToken(header)) && verify(ExtractToken(header).value).None?
    ensures r.Authenticated? ==> Present(ExtractToken(header))
                                 && verify(ExtractToken(header).value) == Some(r.user)
  {
    var token := ExtractToken(header);
    if !Present(token) then Unauthorized
    else match verify(token.value)
      case None => Forbidden
      case Some(claims) => Authenticated(claims)
  }
}
