/**
 * Reading the session token out of an `Authorization` header, as `protect`
 * does it: the header must start with the characters `Bearer`, and the token
 * is the second field when the header is split at every space character
 * (JavaScript's `header.split(' ')[1]`).
 *
 * This is looser than the `Authorization: Bearer` scheme of section 2.1 of
 * RFC 6750: nothing requires a space right after `Bearer`, the comparison is
 * case-sensitive, and text after a further space is ignored.
 */
module BearerToken {
  import opened Wrappers

  const Scheme: string := "Bearer"
  const Space: char := ' '

  /** JavaScript's `s.startsWith(prefix)`. */
  predicate StartsWith(s: string, prefix: string)
  {
    |prefix| <= |s| && s[..|prefix|] == prefix
  }

  /**
   * JavaScript's `s.split(sep)` for a one-character separator: the maximal
   * runs of characters between separators, empty runs included.
   */
  function Split(s: string, sep: char): (fields: seq<string>)
    ensures |fields| >= 1
    ensures forall i :: 0 <= i < |fields| ==> sep !in fields[i]
  {
    if s == [] then [""]
    else
      var rest := Split(s[1..], sep);
      if s[0] == sep then [""] + rest
      else [[s[0]] + rest[0]] + rest[1..]
  }

  /** JavaScript's `fields.join(sep)`. */
  function Join(fields: seq<string>, sep: char): string
    requires |fields| >= 1
  {
    if |fields| == 1 then fields[0] else fields[0] + [sep] + Join(fields[1..], sep)
  }

  /** Joining the fields of a split gives back the string. */
  lemma {:induction false} JoinSplit(s: string, sep: char)
    ensures Join(Split(s, sep), sep) == s
  {
    if s != [] {
      var rest := Split(s[1..], sep);
      JoinSplit(s[1..], sep);
      if s[0] == sep {
        assert ([""] + rest)[1..] == rest;
      } else if |rest| == 1 {
        assert s == [s[0]] + s[1..];
      } else {
        var fields := [[s[0]] + rest[0]] + rest[1..];
        assert fields[1..] == rest[1..];
        assert s == [s[0]] + s[1..];
      }
    }
  }

  /** A field free of the separator, followed by one, splits off as the first field. */
  lemma {:induction false} SplitAfterField(a: string, b: string, sep: char)
    requires sep !in a
    ensures Split(a + [sep] + b, sep) == [a] + Split(b, sep)
  {
    if a != [] {
      assert (a + [sep] + b)[1..] == a[1..] + [sep] + b;
      SplitAfterField(a[1..], b, sep);
      assert [a[0]] + a[1..] == a;
    } else {
      assert (a + [sep] + b)[1..] == b;
    }
  }

  /** A string free of the separator is a single field. */
  lemma {:induction false} SplitSingleField(a: string, sep: char)
    requires sep !in a
    ensures Split(a, sep) == [a]
  {
    if a != [] {
      SplitSingleField(a[1..], sep);
      assert [a[0]] + a[1..] == a;
    }
  }

  /** Splitting the join of separator-free fields gives back the fields. */
  lemma {:induction false} SplitJoin(fields: seq<string>, sep: char)
    requires |fields| >= 1
    requires forall i :: 0 <= i < |fields| ==> sep !in fields[i]
    ensures Split(Join(fields, sep), sep) == fields
  {
    if |fields| == 1 {
      SplitSingleField(fields[0], sep);
    } else {
      SplitJoin(fields[1..], sep);
      SplitAfterField(fields[0], Join(fields[1..], sep), sep);
      assert [fields[0]] + fields[1..] == fields;
    }
  }

  /** Where the run of `=` padding that ends `t` begins. */
  function PadStart(t: string): (n: nat)
    ensures n <= |t|
    ensures forall i :: n <= i < |t| ==> t[i] == '='
    ensures n == 0 || t[n - 1] != '='
  {
    if t != [] && t[|t| - 1] == '=' then PadStart(t[..|t| - 1]) else |t|
  }

  predicate IsB64Char(c: char)
  {
    ('A' <= c <= 'Z') || ('a' <= c <= 'z') || ('0' <= c <= '9')
    || c == '-' || c == '.' || c == '_' || c == '~' || c == '+' || c == '/'
  }

  /**
   * A `b64token` of section 2.1 of RFC 6750: one or more characters from
   * letters, digits, `-`, `.`, `_`, `~`, `+` and `/`, then any number of `=`.
   */
  predicate IsB64Token(t: string)
  {
    PadStart(t) >= 1 && forall i :: 0 <= i < PadStart(t) ==> IsB64Char(t[i])
  }

  /** A `b64token` is non-empty and holds no space, so splitting at spaces keeps it whole. */
  lemma B64TokenHasNoSpace(t: string)
    requires IsB64Token(t)
    ensures t != [] && Space !in t
  {
  }

  /**
   * The value of `token` after the header check in `protect`: `None` when
   * the header is absent or empty, does not start with `Bearer`, or has no
   * second space-separated field. The field may be empty.
   */
  function ExtractBearerToken(authorization: Option<string>): (token: Option<string>)
    ensures token.Some? ==> authorization.Some? && StartsWith(authorization.value, Scheme)
    ensures token.Some? ==> Space !in token.value
  {
    if authorization.Some? && authorization.value != [] && StartsWith(authorization.value, Scheme) then
      var fields := Split(authorization.value, Space);
      if |fields| >= 2 then Some(fields[1]) else None
    else None
  }

  /**
   * The extracted token is the text between the first and the second space
   * of the header (or its end).
   */
  lemma {:induction false} TokenIsSecondField(header: string, token: string)
    requires ExtractBearerToken(Some(header)) == Some(token)
    ensures exists i :: 0 <= i && i + 1 + |token| <= |header| && Space !in header[..i] && header[i] == Space
                        && header[i + 1..i + 1 + |token|] == token
                        && (i + 1 + |token| == |header| || header[i + 1 + |token|] == Space)
  {
    var fields := Split(header, Space);
    JoinSplit(header, Space);
    var i := |fields[0]|;
    var tail := if |fields| == 2 then "" else [Space] + Join(fields[2..], Space);
    assert Join(fields[1..], Space) == fields[1] + tail by {
      assert fields[1..][0] == fields[1];
      assert fields[1..][1..] == fields[2..];
    }
    assert header == fields[0] + [Space] + token + tail;
    assert Space !in fields[0];
    assert header[..i] == fields[0];
    assert header[i] == Space;
    assert tail == [] || tail[0] == Space;
    assert header[i + 1..i + 1 + |token|] == token;
  }

  /**
   * A header made of a space-free lead that starts with `Bearer`, one space
   * and a space-free token yields that token.
   */
  lemma {:induction false} ExtractFromFields(lead: string, token: string)
    requires StartsWith(lead, Scheme) && Space !in lead && Space !in token
    ensures ExtractBearerToken(Some(lead + [Space] + token)) == Some(token)
  {
    SplitAfterField(lead, token, Space);
    SplitSingleField(token, Space);
    assert (lead + [Space] + token)[..|Scheme|] == lead[..|Scheme|];
  }

  /**
   * Whatever follows a second space is ignored: `Bearer abc def` yields
   * `abc`, the second field of the split.
   */
  lemma {:induction false} ExtractIgnoresLaterFields(lead: string, token: string, rest: string)
    requires StartsWith(lead, Scheme) && Space !in lead && Space !in token
    ensures ExtractBearerToken(Some(lead + [Space] + token + [Space] + rest)) == Some(token)
  {
    SplitAfterField(lead, token + [Space] + rest, Space);
    SplitAfterField(token, rest, Space);
    assert lead + [Space] + token + [Space] + rest == lead + [Space] + (token + [Space] + rest);
    assert (lead + [Space] + token + [Space] + rest)[..|Scheme|] == lead[..|Scheme|];
  }

  /** A header in the form RFC 6750 prescribes yields exactly its token. */
  lemma BearerRoundTrip(token: string)
    requires IsB64Token(token)
    ensures ExtractBearerToken(Some(Scheme + [Space] + token)) == Some(token)
  {
    B64TokenHasNoSpace(token);
    ExtractFromFields(Scheme, token);
  }

  /** `Bearer` alone has no second field, so there is no token. */
  lemma BareSchemeHasNoToken()
    ensures ExtractBearerToken(Some(Scheme)) == None
  {
  }

  /** The scheme check is case-sensitive: `bearer abc` yields no token. */
  lemma LowerCaseSchemeHasNoToken()
    ensures ExtractBearerToken(Some("bearer abc")) == None
  {
  }

  /** No space is required after `Bearer`: `Bearerx abc` yields `abc`. */
  lemma SchemeNeedNotEndAtSpace()
    ensures ExtractBearerToken(Some("Bearerx abc")) == Some("abc")
  {
    var lead, token := "Bearerx", "abc";
    assert lead[..|Scheme|] == Scheme;
    ExtractFromFields(lead, token);
    assert lead + [Space] + token == "Bearerx abc";
  }

  /**
   * Two spaces after the scheme make the second field empty: the token is
   * `""`, which `protect` then treats as missing.
   */
  lemma {:induction false} DoubleSpaceYieldsEmptyToken(lead: string, rest: string)
    requires StartsWith(lead, Scheme) && Space !in lead
    ensures ExtractBearerToken(Some(lead + [Space, Space] + rest)) == Some("")
  {
    SplitAfterField(lead, [Space] + rest, Space);
    assert lead + [Space, Space] + rest == lead + [Space] + ([Space] + rest);
    assert ([Space] + rest)[1..] == rest;
    assert (lead + [Space, Space] + rest)[..|Scheme|] == lead[..|Scheme|];
  }
}
