/** `escapeHtml`, applied to a trade's notes before they are written into
    the journal table: three global replacements, ampersand first. */
module Html {

  /** `s.replace(/c/g, rep)` for a single character `c`. */
  function ReplaceAll(s: string, c: char, rep: string): (r: string)
    ensures c !in rep ==> c !in r
    ensures forall x :: x in r ==> x in s || x in rep
    ensures |rep| >= 1 ==> |r| >= |s|
  {
    if s == [] then []
    else (if s[0] == c then rep else [s[0]]) + ReplaceAll(s[1..], c, rep)
  }

  /** Replacement works piece by piece. */
  lemma {:induction false} ReplaceAllConcat(a: string, b: string, c: char, rep: string)
    ensures ReplaceAll(a + b, c, rep) == ReplaceAll(a, c, rep) + ReplaceAll(b, c, rep)
  {
    if a == [] {
      assert a + b == b;
    } else {
      assert (a + b)[0] == a[0];
      assert (a + b)[1..] == a[1..] + b;
      ReplaceAllConcat(a[1..], b, c, rep);
    }
  }

  /** Replacing a character that does not occur changes nothing. */
  lemma {:induction false} ReplaceAllAbsent(s: string, c: char, rep: string)
    requires c !in s
    ensures ReplaceAll(s, c, rep) == s
  {
    if s != [] {
      ReplaceAllAbsent(s[1..], c, rep);
    }
  }

  /** The three passes, in the source's order: `&`, then `<`, then `>`. */
  function EscapeHtml(s: string): (r: string)
    ensures |r| >= |s|
    ensures '<' !in r && '>' !in r
  {
    ReplaceAll(ReplaceAll(ReplaceAll(s, '&', "&amp;"), '<', "&lt;"), '>', "&gt;")
  }

  // ---------------------------------------------------------------------
  // A character-at-a-time reference definition

  /** The entity each special character becomes. */
  function EscapeChar(x: char): string
  {
    if x == '&' then "&amp;"
    else if x == '<' then "&lt;"
    else if x == '>' then "&gt;"
    else [x]
  }

  function EscapeEach(s: string): string
  {
    if s == [] then [] else EscapeChar(s[0]) + EscapeEach(s[1..])
  }

  lemma ReplaceAllSingle(x: char, c: char, rep: string)
    ensures ReplaceAll([x], c, rep) == if x == c then rep else [x]
  {
    assert [x][1..] == [];
  }

  /** A single character is escaped to its entity. */
  lemma EscapeSingle(x: char)
    ensures EscapeHtml([x]) == EscapeChar(x)
  {
    ReplaceAllSingle(x, '&', "&amp;");
    if x == '&' {
      ReplaceAllAbsent("&amp;", '<', "&lt;");
      ReplaceAllAbsent("&amp;", '>', "&gt;");
    } else {
      ReplaceAllSingle(x, '<', "&lt;");
      if x == '<' {
        ReplaceAllAbsent("&lt;", '>', "&gt;");
      } else {
        ReplaceAllSingle(x, '>', "&gt;");
      }
    }
  }

  lemma EscapeHtmlConcat(a: string, b: string)
    ensures EscapeHtml(a + b) == EscapeHtml(a) + EscapeHtml(b)
  {
    ReplaceAllConcat(a, b, '&', "&amp;");
    var a1, b1 := ReplaceAll(a, '&', "&amp;"), ReplaceAll(b, '&', "&amp;");
    ReplaceAllConcat(a1, b1, '<', "&lt;");
    ReplaceAllConcat(ReplaceAll(a1, '<', "&lt;"), ReplaceAll(b1, '<', "&lt;"), '>', "&gt;");
  }

  /** The three passes escape each character on its own: because `&` is
      replaced first, the ampersands the later passes introduce are never
      escaped again. */
  lemma {:induction false} EscapeIsPerChar(s: string)
    ensures EscapeHtml(s) == EscapeEach(s)
  {
    if s != [] {
      assert s == [s[0]] + s[1..];
      EscapeHtmlConcat([s[0]], s[1..]);
      EscapeSingle(s[0]);
      EscapeIsPerChar(s[1..]);
    }
  }

  // ---------------------------------------------------------------------
  // What the escaped text looks like

  /** `r` starts with one of the three entities. */
  predicate StartsEntity(r: string)
  {
    "&amp;" <= r || "&lt;" <= r || "&gt;" <= r
  }

  lemma {:induction false} EscapeEachShape(s: string)
    ensures '<' !in EscapeEach(s) && '>' !in EscapeEach(s)
    ensures forall i :: 0 <= i < |EscapeEach(s)| && EscapeEach(s)[i] == '&' ==> StartsEntity(EscapeEach(s)[i..])
  {
    if s != [] {
      EscapeEachShape(s[1..]);
      var head, rest := EscapeChar(s[0]), EscapeEach(s[1..]);
      var r := head + rest;
      assert EscapeEach(s) == r;
      forall i | 0 <= i < |r| && r[i] == '&'
        ensures StartsEntity(r[i..])
      {
        if i < |head| {
          assert s[0] == '&' || s[0] == '<' || s[0] == '>';
          assert i == 0;
          assert head <= r[i..];
        } else {
          assert r[i..] == rest[i - |head|..];
          assert rest[i - |head|] == '&';
        }
      }
    }
  }

  /** The escaped notes contain no `<` or `>`, and every `&` in them starts
      `&amp;`, `&lt;` or `&gt;`. */
  lemma EscapeHtmlShape(s: string)
    ensures '<' !in EscapeHtml(s) && '>' !in EscapeHtml(s)
    ensures forall i :: 0 <= i < |EscapeHtml(s)| && EscapeHtml(s)[i] == '&' ==> StartsEntity(EscapeHtml(s)[i..])
  {
    EscapeIsPerChar(s);
    EscapeEachShape(s);
  }

  // ---------------------------------------------------------------------
  // Decoding

  /** Reads the three entities back as the characters they stand for. */
  function Unescape(r: string): string
    decreases |r|
  {
    if r == [] then []
    else if "&amp;" <= r then ['&'] + Unescape(r[5..])
    else if "&lt;" <= r then ['<'] + Unescape(r[4..])
    else if "&gt;" <= r then ['>'] + Unescape(r[4..])
    else [r[0]] + Unescape(r[1..])
  }

  /** A string that differs from `p` at some position of `p` does not
      start with `p`. */
  lemma NotPrefix(p: string, r: string, k: nat)
    requires k < |p| && k < |r| && r[k] != p[k]
    ensures !(p <= r)
  {
  }

  /** Decoding reads one escaped character back and moves on. */
  lemma UnescapeStep(x: char, rest: string)
    ensures Unescape(EscapeChar(x) + rest) == [x] + Unescape(rest)
  {
    var r := EscapeChar(x) + rest;
    if x == '&' {
      assert "&amp;" <= r && r[5..] == rest;
    } else if x == '<' {
      assert r[1] == 'l';
      NotPrefix("&amp;", r, 1);
      assert "&lt;" <= r && r[4..] == rest;
    } else if x == '>' {
      assert r[1] == 'g';
      NotPrefix("&amp;", r, 1);
      NotPrefix("&lt;", r, 1);
      assert "&gt;" <= r && r[4..] == rest;
    } else {
      assert r[0] == x;
      NotPrefix("&amp;", r, 0);
      NotPrefix("&lt;", r, 0);
      NotPrefix("&gt;", r, 0);
      assert r[1..] == rest;
    }
  }

  lemma {:induction false} UnescapeEscapeEach(s: string)
    ensures Unescape(EscapeEach(s)) == s
  {
    if s != [] {
      UnescapeStep(s[0], EscapeEach(s[1..]));
      UnescapeEscapeEach(s[1..]);
      assert s == [s[0]] + s[1..];
    }
  }

  /** Escaping loses nothing: the notes can be read back from the escaped
      text, so distinct notes never render alike. */
  lemma EscapeHtmlRoundTrip(s: string)
    ensures Unescape(EscapeHtml(s)) == s
  {
    EscapeIsPerChar(s);
    UnescapeEscapeEach(s);
  }

  /** Escaping is one-to-one. */
  lemma EscapeHtmlInjective(a: string, b: string)
    requires EscapeHtml(a) == EscapeHtml(b)
    ensures a == b
  {
    EscapeHtmlRoundTrip(a);
    EscapeHtmlRoundTrip(b);
  }

  /** Text without `&`, `<` and `>` is shown as it is. */
  lemma EscapePlainText(s: string)
    requires '&' !in s && '<' !in s && '>' !in s
    ensures EscapeHtml(s) == s
  {
    ReplaceAllAbsent(s, '&', "&amp;");
    ReplaceAllAbsent(s, '<', "&lt;");
    ReplaceAllAbsent(s, '>', "&gt;");
  }
}
