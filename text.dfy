/** The string operations the views rely on: Python's `str.strip()` (the
    signup view strips the email) and the case-insensitive substring test
    behind Django's `icontains` lookup (the search view). */
module Text {

  /** The characters Python's `str.isspace` accepts, so the ones `strip()`
      removes, listed by code point. */
  predicate IsWhitespace(c: char) {
    var n := c as int;
    (9 <= n <= 13) || (28 <= n <= 32) || n == 0x85 || n == 0xA0 || n == 0x1680
    || (0x2000 <= n <= 0x200A) || n == 0x2028 || n == 0x2029 || n == 0x202F
    || n == 0x205F || n == 0x3000
  }

  /** `s` without its leading whitespace: a suffix of `s`, everything
      dropped is whitespace and what remains does not start with it. */
  function TrimStart(s: string): (r: string)
    ensures |r| <= |s| && r == s[|s| - |r|..]
    ensures forall i :: 0 <= i < |s| - |r| ==> IsWhitespace(s[i])
    ensures r == [] || !IsWhitespace(r[0])
  {
    if |s| > 0 && IsWhitespace(s[0]) then TrimStart(s[1..]) else s
  }

  /** `s` without its trailing whitespace: a prefix of `s`, everything
      dropped is whitespace and what remains does not end with it. */
  function TrimEnd(s: string): (r: string)
    ensures |r| <= |s| && r == s[..|r|]
    ensures forall i :: |r| <= i < |s| ==> IsWhitespace(s[i])
    ensures r == [] || !IsWhitespace(r[|r| - 1])
  {
    if |s| > 0 && IsWhitespace(s[|s| - 1]) then TrimEnd(s[..|s| - 1]) else s
  }

  /** `r` sits at index `i` of `s`, and everything before and after it is
      whitespace. */
  ghost predicate StrippedAt(s: string, r: string, i: nat) {
    && OccursAt(s, r, i)
    && (forall j :: 0 <= j < i ==> IsWhitespace(s[j]))
    && (forall j :: i + |r| <= j < |s| ==> IsWhitespace(s[j]))
  }

  /** Python's `s.strip()`: `s` with only leading and trailing whitespace
      removed. The result is blank exactly when `s` holds only whitespace,
      and otherwise starts and ends with a non-space. */
  function Strip(s: string): (r: string)
    ensures exists i: nat :: StrippedAt(s, r, i)
    ensures r == [] <==> forall i :: 0 <= i < |s| ==> IsWhitespace(s[i])
    ensures r != [] ==> !IsWhitespace(r[0]) && !IsWhitespace(r[|r| - 1])
  {
    StripLocated(s);
    StripEnds(s);
    TrimEnd(TrimStart(s))
  }

  /** Where `Strip`'s result sits in `s`: after the leading whitespace. */
  lemma StripLocated(s: string)
    ensures StrippedAt(s, TrimEnd(TrimStart(s)), |s| - |TrimStart(s)|)
  {
    var t := TrimStart(s);
    PieceStrippedAt(s, t, TrimEnd(t), |s| - |t|);
  }

  /** A prefix `r` of the suffix `t` of `s` that starts at `k`, with only
      whitespace before `k` and after `r` in `t`, is `s` stripped at `k`. */
  lemma PieceStrippedAt(s: string, t: string, r: string, k: nat)
    requires k <= |s| && t == s[k..] && |r| <= |t| && r == t[..|r|]
    requires forall i :: 0 <= i < k ==> IsWhitespace(s[i])
    requires forall i :: |r| <= i < |t| ==> IsWhitespace(t[i])
    ensures StrippedAt(s, r, k)
  {
    assert s[k..k + |r|] == r;
    forall j | k + |r| <= j < |s| ensures IsWhitespace(s[j]) {
      assert s[j] == t[j - k];
    }
  }

  /** A blank `Strip` result means nothing was left after `TrimStart`;
      otherwise both begin with the same character. */
  lemma StripEnds(s: string)
    ensures var t := TrimStart(s); var r := TrimEnd(t);
      && (r == [] ==> t == [])
      && (r != [] ==> r[0] == t[0])
  {
    var t := TrimStart(s);
    var r := TrimEnd(t);
    assert r == t[..|r|];
  }

  /** Stripping twice changes nothing more. */
  lemma StripIdempotent(s: string)
    ensures Strip(Strip(s)) == Strip(s)
  {
    var r := Strip(s);
    if r != [] {
      assert TrimStart(r) == r;
      assert TrimEnd(r) == r;
    }
  }

  /** ASCII upper case to lower case; every other character unchanged. */
  function ToLower(c: char): char {
    if 'A' <= c <= 'Z' then (c as int + 32) as char else c
  }

  /** A string lower-cased character by character. */
  function LowerString(s: string): (r: string)
    ensures |r| == |s|
    ensures forall i :: 0 <= i < |s| ==> r[i] == ToLower(s[i])
  {
    seq(|s|, i requires 0 <= i < |s| => ToLower(s[i]))
  }

  /** Lower-casing a lower-cased string changes nothing. */
  lemma LowerStringIdempotent(s: string)
    ensures LowerString(LowerString(s)) == LowerString(s)
  {
  }

  /** `q` occurs in `s` starting at index `i`. */
  ghost predicate OccursAt(s: string, q: string, i: nat) {
    i + |q| <= |s| && s[i..i + |q|] == q
  }

  /** The substring test: `q` is a prefix of `s` or of one of its suffixes. */
  predicate Contains(s: string, q: string) {
    q <= s || (|s| > 0 && Contains(s[1..], q))
  }

  /** An occurrence in the tail of `s` is an occurrence in `s` one index on. */
  lemma OccursAtShift(s: string, q: string, i: nat)
    requires |s| > 0
    ensures OccursAt(s, q, i + 1) <==> OccursAt(s[1..], q, i)
  {
    if i + 1 + |q| <= |s| {
      assert s[1..][i..i + |q|] == s[i + 1..i + 1 + |q|];
    }
  }

  /** `Contains` holds exactly when `q` occurs at some index of `s`. */
  lemma {:induction false} ContainsIff(s: string, q: string)
    ensures Contains(s, q) <==> exists i: nat :: OccursAt(s, q, i)
  {
    if q <= s {
      assert OccursAt(s, q, 0);
    } else if |s| > 0 {
      ContainsIff(s[1..], q);
      if Contains(s[1..], q) {
        var i: nat :| OccursAt(s[1..], q, i);
        OccursAtShift(s, q, i);
      } else {
        forall i: nat | OccursAt(s, q, i) ensures false {
          if i > 0 {
            OccursAtShift(s, q, i - 1);
          }
        }
      }
    } else {
      forall i: nat | OccursAt(s, q, i) ensures false {
      }
    }
  }

  /** The empty string occurs in every string. */
  lemma ContainsEmpty(s: string)
    ensures Contains(s, [])
  {
  }

  /** Django's `icontains`: substring test after lower-casing both sides. */
  predicate IContains(s: string, q: string)
    ensures IContains(s, q) <==> exists i: nat :: OccursAt(LowerString(s), LowerString(q), i)
  {
    ContainsIff(LowerString(s), LowerString(q));
    Contains(LowerString(s), LowerString(q))
  }
}
