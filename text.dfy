/** The string primitives the journal uses: `includes`, `endsWith`,
    `toUpperCase`, `toLowerCase`, `trim`, the regular expression
    `/[A-Z]{6}/`, and the code-unit order used by `Array.prototype.sort`. */
module Text {

  // ---------------------------------------------------------------------
  // includes / endsWith

  /** `p` occurs in `s` starting at index `i`. */
  ghost predicate OccursAt(s: string, p: string, i: int)
  {
    0 <= i && i + |p| <= |s| && s[i..i + |p|] == p
  }

  /** `s.includes(p)`: some occurrence of `p` lies inside `s`. */
  function Includes(s: string, p: string): (r: bool)
    ensures r <==> exists i :: OccursAt(s, p, i)
    decreases |s|
  {
    if |s| < |p| then false
    else if s[..|p|] == p then assert OccursAt(s, p, 0); true
    else
      ShiftOccurrence(s, p);
      Includes(s[1..], p)
  }

  /** When `p` does not start `s`, its occurrences in `s` are those in `s[1..]`. */
  lemma ShiftOccurrence(s: string, p: string)
    requires |p| <= |s| && s[..|p|] != p
    ensures (exists i :: OccursAt(s, p, i)) <==> (exists i :: OccursAt(s[1..], p, i))
  {
    forall i | OccursAt(s[1..], p, i)
      ensures OccursAt(s, p, i + 1)
    {
      assert s[1..][i..i + |p|] == s[i + 1..i + 1 + |p|];
    }
    forall i | OccursAt(s, p, i)
      ensures OccursAt(s[1..], p, i - 1)
    {
      assert i != 0;
      assert s[1..][i - 1..i - 1 + |p|] == s[i..i + |p|];
    }
  }

  /** A pattern with a character that `s` lacks does not occur in `s`. */
  lemma MissingCharNotIncluded(s: string, p: string, k: nat)
    requires k < |p| && p[k] !in s
    ensures !Includes(s, p)
  {
  }

  /** `s.endsWith(suffix)`: `s` is some string followed by `suffix`. */
  predicate EndsWith(s: string, suffix: string): (r: bool)
    ensures r <==> exists p :: p + suffix == s
  {
    if |suffix| <= |s| && s[|s| - |suffix|..] == suffix then
      assert s[..|s| - |suffix|] + suffix == s;
      true
    else
      false
  }

  // ---------------------------------------------------------------------
  // Case mapping (ASCII letters only)

  predicate IsUpperLetter(c: char) { 'A' <= c <= 'Z' }

  predicate IsLowerLetter(c: char) { 'a' <= c <= 'z' }

  function UpperChar(c: char): char
  {
    if IsLowerLetter(c) then (c as int - 32) as char else c
  }

  function LowerChar(c: char): char
  {
    if IsUpperLetter(c) then (c as int + 32) as char else c
  }

  /** `s.toUpperCase()`, character by character. */
  function ToUpper(s: string): (r: string)
    ensures |r| == |s|
    ensures forall i :: 0 <= i < |s| ==> r[i] == UpperChar(s[i])
  {
    seq(|s|, i requires 0 <= i < |s| => UpperChar(s[i]))
  }

  /** `s.toLowerCase()`, character by character. */
  function ToLower(s: string): (r: string)
    ensures |r| == |s|
    ensures forall i :: 0 <= i < |s| ==> r[i] == LowerChar(s[i])
  {
    seq(|s|, i requires 0 <= i < |s| => LowerChar(s[i]))
  }

  /** Upper-casing leaves no lower-case letter, so doing it twice changes nothing. */
  lemma ToUpperIdempotent(s: string)
    ensures forall i :: 0 <= i < |s| ==> !IsLowerLetter(ToUpper(s)[i])
    ensures ToUpper(ToUpper(s)) == ToUpper(s)
  {
  }

  /** A string without lower-case letters is its own upper-case form. */
  lemma UpperUnchanged(s: string)
    requires forall i :: 0 <= i < |s| ==> !IsLowerLetter(s[i])
    ensures ToUpper(s) == s
  {
  }

  /** Lower-casing forgets any earlier upper-casing. */
  lemma LowerOfUpper(s: string)
    ensures ToLower(ToUpper(s)) == ToLower(s)
  {
  }

  // ---------------------------------------------------------------------
  // trim

  /** The characters that `String.prototype.trim` strips: ECMAScript's
      WhiteSpace and LineTerminator. */
  predicate IsSpace(c: char)
  {
    c == '\t' || c == '\n' || c == '\U{B}' || c == '\U{C}' || c == '\r' || c == ' '
    || c == '\U{A0}' || c == '\U{1680}' || ('\U{2000}' <= c <= '\U{200A}')
    || c == '\U{2028}' || c == '\U{2029}' || c == '\U{202F}' || c == '\U{205F}'
    || c == '\U{3000}' || c == '\U{FEFF}'
  }

  predicate AllSpace(s: string)
  {
    forall i :: 0 <= i < |s| ==> IsSpace(s[i])
  }

  /** The number of white-space characters `s` starts with. */
  function LeadingSpaces(s: string): (n: nat)
    ensures n <= |s|
    ensures forall i :: 0 <= i < n ==> IsSpace(s[i])
    ensures n < |s| ==> !IsSpace(s[n])
  {
    if s == [] || !IsSpace(s[0]) then 0
    else
      var n := LeadingSpaces(s[1..]);
      assert forall i :: 1 <= i < n + 1 ==> s[i] == s[1..][i - 1];
      n + 1
  }

  /** Where the white space that `s` ends with begins. */
  function TrailingStart(s: string): (m: nat)
    ensures m <= |s|
    ensures forall i :: m <= i < |s| ==> IsSpace(s[i])
    ensures m > 0 ==> !IsSpace(s[m - 1])
  {
    if s == [] || !IsSpace(s[|s| - 1]) then |s|
    else
      var m := TrailingStart(s[..|s| - 1]);
      assert forall i :: m <= i < |s| - 1 ==> s[i] == s[..|s| - 1][i];
      m
  }

  /** `s.trim()`: the part of `s` between its leading and trailing white
      space. It is empty exactly when `s` is all white space, otherwise it
      starts and ends with other characters, and it is what is left of `s`
      once white space is removed from both ends. */
  function Trim(s: string): (r: string)
    ensures r == [] <==> AllSpace(s)
    ensures r != [] ==> !IsSpace(r[0]) && !IsSpace(r[|r| - 1])
    ensures Includes(s, r)
    ensures exists lo :: OccursAt(s, r, lo) && AllSpace(s[..lo]) && AllSpace(s[lo + |r|..])
  {
    var lo := LeadingSpaces(s);
    var t := s[lo..];
    var hi := TrailingStart(t);
    TrimFacts(s, lo, hi);
    t[..hi]
  }

  lemma TrimFacts(s: string, lo: nat, hi: nat)
    requires lo == LeadingSpaces(s) && hi == TrailingStart(s[lo..])
    ensures var r := s[lo..][..hi];
      && (r == [] <==> AllSpace(s))
      && (r != [] ==> !IsSpace(r[0]) && !IsSpace(r[|r| - 1]))
      && OccursAt(s, r, lo)
      && AllSpace(s[..lo]) && AllSpace(s[lo + |r|..])
  {
    var t := s[lo..];
    var r := t[..hi];
    assert r == s[lo..lo + hi];
    assert s[lo + hi..] == t[hi..];
    // hi == 0 with lo < |s| would make s[lo] both white space and not
    if AllSpace(s) && lo < |s| {
      assert false;
    }
    if r != [] {
      assert r[0] == s[lo];
      assert r[|r| - 1] == t[hi - 1];
    }
  }

  // ---------------------------------------------------------------------
  // The regular expression /[A-Z]{6}/

  /** Six upper-case letters A-Z stand at `s[i..i+6]`. */
  ghost predicate UpperRunAt(s: string, i: int)
  {
    0 <= i && i + 6 <= |s| && forall k :: i <= k < i + 6 ==> IsUpperLetter(s[k])
  }

  /** `/[A-Z]{6}/.test(s)`: somewhere in `s` stand six consecutive
      letters A-Z. */
  function HasSixUpperRun(s: string): (r: bool)
    ensures r <==> exists i :: UpperRunAt(s, i)
    decreases |s|
  {
    if |s| < 6 then false
    else if forall k :: 0 <= k < 6 ==> IsUpperLetter(s[k]) then assert UpperRunAt(s, 0); true
    else
      ShiftRun(s);
      HasSixUpperRun(s[1..])
  }

  lemma ShiftRun(s: string)
    requires 6 <= |s| && !(forall k :: 0 <= k < 6 ==> IsUpperLetter(s[k]))
    ensures (exists i :: UpperRunAt(s, i)) <==> (exists i :: UpperRunAt(s[1..], i))
  {
    forall i | UpperRunAt(s[1..], i)
      ensures UpperRunAt(s, i + 1)
    {
      forall k | i + 1 <= k < i + 7
        ensures IsUpperLetter(s[k])
      {
        assert s[1..][k - 1] == s[k];
      }
    }
    forall i | UpperRunAt(s, i)
      ensures UpperRunAt(s[1..], i - 1)
    {
      assert i != 0;
    }
  }

  // ---------------------------------------------------------------------
  // The order of Array.prototype.sort on strings

  /** `a` sorts strictly before `b`: a proper prefix, or smaller at the
      first character where they differ. */
  predicate Less(a: string, b: string)
    decreases |a|
  {
    if a == [] then b != []
    else if b == [] then false
    else if a[0] != b[0] then a[0] < b[0]
    else Less(a[1..], b[1..])
  }

  lemma {:induction false} LessIrreflexive(a: string)
    ensures !Less(a, a)
  {
    if a != [] {
      LessIrreflexive(a[1..]);
    }
  }

  lemma {:induction false} LessTransitive(a: string, b: string, c: string)
    requires Less(a, b) && Less(b, c)
    ensures Less(a, c)
    decreases |a|
  {
    if a != [] && b != [] && c != [] && a[0] == b[0] && b[0] == c[0] {
      LessTransitive(a[1..], b[1..], c[1..]);
    }
  }

  lemma {:induction false} LessTotal(a: string, b: string)
    requires a != b
    ensures Less(a, b) || Less(b, a)
    decreases |a|
  {
    if a != [] && b != [] && a[0] == b[0] {
      assert a == [a[0]] + a[1..] && b == [b[0]] + b[1..];
      LessTotal(a[1..], b[1..]);
    }
  }

  /** Strictly increasing, hence without repetitions. */
  ghost predicate Sorted(xs: seq<string>)
  {
    forall i, j :: 0 <= i < j < |xs| ==> Less(xs[i], xs[j])
  }

  /** Inserting a new key into a sorted sequence keeps it sorted. */
  function InsertSorted(xs: seq<string>, k: string): (r: seq<string>)
    requires Sorted(xs) && k !in xs
    ensures Sorted(r)
    ensures |r| == |xs| + 1
    ensures forall x :: x in r <==> x in xs || x == k
  {
    if xs == [] then [k]
    else if Less(k, xs[0]) then
      assert forall j :: 0 <= j < |xs| ==> Less(k, xs[j]) by {
        forall j | 0 < j < |xs| ensures Less(k, xs[j]) { LessTransitive(k, xs[0], xs[j]); }
      }
      [k] + xs
    else
      LessTotal(k, xs[0]);
      var rest := InsertSorted(xs[1..], k);
      assert forall x :: x in rest ==> Less(xs[0], x) by {
        forall x | x in rest ensures Less(xs[0], x) {
          if x != k {
            var j :| 0 <= j < |xs[1..]| && xs[1..][j] == x;
            assert xs[j + 1] == x;
          }
        }
      }
      [xs[0]] + rest
  }
}
