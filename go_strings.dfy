/** The parts of Go's `strings` package and of `fmt`'s decimal formatting that
    the shell executor relies on. A Go string is a byte sequence; here a string
    is a sequence of characters, each standing for one rune. */
module GoStrings {

  predicate HasPrefix(s: string, prefix: string) {
    |prefix| <= |s| && s[..|prefix|] == prefix
  }

  predicate HasSuffix(s: string, suffix: string) {
    |suffix| <= |s| && s[|s| - |suffix|..] == suffix
  }

  /** `sub` occurs in `s` starting at index `i`. */
  predicate OccursAt(s: string, sub: string, i: int) {
    0 <= i <= |s| - |sub| && s[i..i + |sub|] == sub
  }

  /** strings.Contains */
  predicate Contains(s: string, sub: string) {
    exists i :: 0 <= i <= |s| - |sub| && OccursAt(s, sub, i)
  }

  /** strings.TrimSuffix: removes one trailing copy of `suffix` if there is one. */
  function TrimSuffix(s: string, suffix: string): (r: string)
    ensures HasSuffix(s, suffix) ==> r + suffix == s
    ensures !HasSuffix(s, suffix) ==> r == s
  {
    if HasSuffix(s, suffix) then s[..|s| - |suffix|] else s
  }

  /** strings.Replace(s, pat, rep, -1): every non-overlapping occurrence of
      `pat`, found left to right, is replaced by `rep`. An empty `pat` matches
      at the start of `s` and after each rune. */
  function ReplaceAll(s: string, pat: string, rep: string): string {
    if pat == [] then InsertAround(s, rep) else ReplaceFrom(s, pat, rep)
  }

  /** The left-to-right scan for a non-empty pattern. */
  function ReplaceFrom(s: string, pat: string, rep: string): string
    requires pat != []
    decreases |s|
  {
    if s == [] then []
    else if HasPrefix(s, pat) then rep + ReplaceFrom(s[|pat|..], pat, rep)
    else [s[0]] + ReplaceFrom(s[1..], pat, rep)
  }

  /** The empty pattern: `rep` before every rune and once at the end. */
  function InsertAround(s: string, rep: string): string
    decreases |s|
  {
    if s == [] then rep else rep + [s[0]] + InsertAround(s[1..], rep)
  }

  /** strings.Count: the number of non-overlapping occurrences of `pat`, or
      the number of runes plus one when `pat` is empty. */
  function Count(s: string, pat: string): nat {
    if pat == [] then |s| + 1 else CountFrom(s, pat)
  }

  function CountFrom(s: string, pat: string): nat
    requires pat != []
    decreases |s|
  {
    if s == [] then 0
    else if HasPrefix(s, pat) then 1 + CountFrom(s[|pat|..], pat)
    else CountFrom(s[1..], pat)
  }

  // ---------------------------------------------------------------------
  // Properties of Replace and Count

  /** Go's strings.Replace returns `s` at once when `pat == rep`; the scan
      gives the same answer. */
  lemma ReplaceSelf(s: string, pat: string)
    ensures ReplaceAll(s, pat, pat) == s
  {
    if pat == [] {
      InsertAroundEmpty(s);
    } else {
      ReplaceFromSelf(s, pat);
    }
  }

  lemma {:induction false} InsertAroundEmpty(s: string)
    ensures InsertAround(s, []) == s
    decreases |s|
  {
    if s != [] {
      InsertAroundEmpty(s[1..]);
    }
  }

  lemma {:induction false} ReplaceFromSelf(s: string, pat: string)
    requires pat != []
    ensures ReplaceFrom(s, pat, pat) == s
    decreases |s|
  {
    if s == [] {
    } else if HasPrefix(s, pat) {
      ReplaceFromSelf(s[|pat|..], pat);
      assert s == s[..|pat|] + s[|pat|..];
    } else {
      ReplaceFromSelf(s[1..], pat);
      assert s == [s[0]] + s[1..];
    }
  }

  /** Go's strings.Replace returns `s` when Count finds no occurrence; Count
      is zero exactly when the pattern does not occur. */
  lemma CountZeroIffAbsent(s: string, pat: string)
    ensures Count(s, pat) == 0 <==> !Contains(s, pat)
  {
    if pat == [] {
      assert OccursAt(s, pat, 0);
    } else {
      CountFromZeroIffAbsent(s, pat);
    }
  }

  lemma {:induction false} CountFromZeroIffAbsent(s: string, pat: string)
    requires pat != []
    ensures CountFrom(s, pat) == 0 <==> !Contains(s, pat)
    decreases |s|
  {
    if s == [] {
      assert forall i :: !OccursAt(s, pat, i);
    } else if HasPrefix(s, pat) {
      assert OccursAt(s, pat, 0);
    } else {
      CountFromZeroIffAbsent(s[1..], pat);
      ShiftOccurrence(s, pat);
    }
  }

  /** Away from index 0, the occurrences in `s` are those of `s[1..]`, shifted by one. */
  lemma ShiftOccurrence(s: string, pat: string)
    requires s != [] && !HasPrefix(s, pat)
    ensures Contains(s, pat) <==> Contains(s[1..], pat)
  {
    if Contains(s, pat) {
      var t := s[1..];
      var i :| 0 <= i <= |s| - |pat| && OccursAt(s, pat, i);
      assert i != 0;
      assert t[i - 1..i - 1 + |pat|] == s[i..i + |pat|];
      assert OccursAt(t, pat, i - 1);
    }
    if Contains(s[1..], pat) {
      var t := s[1..];
      var i :| 0 <= i <= |t| - |pat| && OccursAt(t, pat, i);
      assert t[i..i + |pat|] == s[i + 1..i + 1 + |pat|];
      assert OccursAt(s, pat, i + 1);
    }
  }

  /** When the pattern does not occur, the value passes through unchanged. */
  lemma {:induction false} ReplaceAbsent(s: string, pat: string, rep: string)
    requires !Contains(s, pat)
    ensures ReplaceAll(s, pat, rep) == s
    decreases |s|
  {
    assert pat != [] by {
      if pat == [] {
        assert OccursAt(s, pat, 0);
      }
    }
    if s != [] {
      assert !HasPrefix(s, pat) by {
        if HasPrefix(s, pat) {
          assert OccursAt(s, pat, 0);
        }
      }
      ShiftOccurrence(s, pat);
      ReplaceAbsent(s[1..], pat, rep);
      assert s == [s[0]] + s[1..];
    }
  }

  /** A value that starts with the pattern starts, after replacement, with
      the replacement. */
  lemma ReplaceLeading(pat: string, rest: string, rep: string)
    requires pat != []
    ensures ReplaceAll(pat + rest, pat, rep) == rep + ReplaceAll(rest, pat, rep)
  {
    assert HasPrefix(pat + rest, pat);
    assert (pat + rest)[|pat|..] == rest;
  }

  /** A value equal to a non-empty pattern becomes exactly the replacement. */
  lemma ReplaceWhole(pat: string, rep: string)
    requires pat != []
    ensures ReplaceAll(pat, pat, rep) == rep
  {
    ReplaceLeading(pat, [], rep);
    assert pat + [] == pat;
  }

  /** Each replaced occurrence changes the length by |rep| - |pat|. */
  lemma ReplaceLength(s: string, pat: string, rep: string)
    ensures |ReplaceAll(s, pat, rep)| == |s| + Count(s, pat) * (|rep| - |pat|)
  {
    if pat == [] {
      InsertAroundLength(s, rep);
    } else {
      ReplaceFromLength(s, pat, rep);
    }
  }

  lemma {:induction false} InsertAroundLength(s: string, rep: string)
    ensures |InsertAround(s, rep)| == |s| + (|s| + 1) * |rep|
    decreases |s|
  {
    if s != [] {
      InsertAroundLength(s[1..], rep);
      assert (|s| + 1) * |rep| == |rep| + |s| * |rep|;
      assert |s| * |rep| == |rep| + (|s| - 1) * |rep|;
    }
  }

  lemma MulSucc(c: int, d: int)
    ensures (1 + c) * d == d + c * d
  {
  }

  lemma {:induction false} ReplaceFromLength(s: string, pat: string, rep: string)
    requires pat != []
    ensures |ReplaceFrom(s, pat, rep)| == |s| + CountFrom(s, pat) * (|rep| - |pat|)
    decreases |s|
  {
    if s == [] {
    } else if HasPrefix(s, pat) {
      var rest := s[|pat|..];
      ReplaceFromLength(rest, pat, rep);
      MulSucc(CountFrom(rest, pat), |rep| - |pat|);
    } else {
      ReplaceFromLength(s[1..], pat, rep);
    }
  }

  // ---------------------------------------------------------------------
  // Decimal formatting of integers, as fmt's %v prints an int

  predicate IsDigit(c: char) {
    '0' <= c <= '9'
  }

  function DigitChar(d: int): (c: char)
    requires 0 <= d < 10
    ensures IsDigit(c)
  {
    ('0' as int + d) as char
  }

  function DigitValue(c: char): (d: int)
    requires IsDigit(c)
    ensures 0 <= d < 10 && DigitChar(d) == c
  {
    c as int - '0' as int
  }

  /** The decimal digits of `n`, most significant first, with no leading zero. */
  function FormatNat(n: nat): (s: string)
    ensures |s| > 0
    ensures forall i :: 0 <= i < |s| ==> IsDigit(s[i])
    ensures s[0] == '0' <==> n == 0
    decreases n
  {
    if n < 10 then [DigitChar(n)] else FormatNat(n / 10) + [DigitChar(n % 10)]
  }

  /** Reads a decimal numeral back. */
  function ParseNat(s: string): nat
    requires |s| > 0 && forall i :: 0 <= i < |s| ==> IsDigit(s[i])
    decreases |s|
  {
    if |s| == 1 then DigitValue(s[0])
    else 10 * ParseNat(s[..|s| - 1]) + DigitValue(s[|s| - 1])
  }

  /** The decimal text of `n` reads back as `n`. */
  lemma {:induction false} ParseFormatNat(n: nat)
    ensures ParseNat(FormatNat(n)) == n
    decreases n
  {
    if n >= 10 {
      var s := FormatNat(n);
      ParseFormatNat(n / 10);
      assert s[..|s| - 1] == FormatNat(n / 10);
      assert DigitValue(s[|s| - 1]) == n % 10;
    }
  }
}
