/** The part of Go's `strings` package the storage adapter relies on:
    `strings.Replace(s, old, new, -1)` (equivalently `strings.ReplaceAll`) and
    the non-overlapping `strings.Count` that sizes its result.

    A Go string is an arbitrary sequence of bytes. Here a string is a
    `seq<char>`, a sequence of runes: the model assumes valid UTF-8, and its
    lengths count runes where Go's `len` counts bytes. */
module GoStrings {

  /** `p` is a prefix of `s` (Go's `strings.HasPrefix`). */
  predicate HasPrefix(s: string, p: string)
  {
    |p| <= |s| && s[..|p|] == p
  }

  /** `sub` occurs in `s` at index `i`. */
  predicate OccursAt(s: string, sub: string, i: int)
  {
    0 <= i && i + |sub| <= |s| && s[i..i + |sub|] == sub
  }

  /** `sub` occurs somewhere in `s` (Go's `strings.Contains`). */
  predicate Occurs(s: string, sub: string)
  {
    exists i | 0 <= i <= |s| :: OccursAt(s, sub, i)
  }

  /** Number of leftmost, non-overlapping occurrences of `sub` in `s`; for an
      empty `sub`, one more than the number of runes (Go's `strings.Count`). */
  function Count(s: string, sub: string): (n: nat)
    ensures sub != "" ==> n * |sub| <= |s|
    decreases |s|
  {
    if sub == "" then |s| + 1
    else if s == "" then 0
    else if HasPrefix(s, sub) then
      var rest := Count(s[|sub|..], sub);
      assert (1 + rest) * |sub| == |sub| + rest * |sub|;
      1 + rest
    else Count(s[1..], sub)
  }

  /** Go's rule for an empty pattern: the replacement is inserted at the start
      and after every rune. */
  function InsertAtRunes(s: string, replacement: string): string
  {
    if s == "" then replacement
    else replacement + [s[0]] + InsertAtRunes(s[1..], replacement)
  }

  /** `strings.Replace(s, pattern, replacement, -1)`: scanning from the left,
      every occurrence of `pattern` is replaced and the scan resumes after it,
      so the occurrences replaced are the leftmost non-overlapping ones. The
      length of the result is the one Go allocates for it,
      `len(s) + n*(len(new)-len(old))` with `n = Count(s, old)`.
      Go's early returns (when `pattern == replacement`, or when `pattern`
      does not occur) yield the same string; see ReplaceAllSelf and
      ReplaceAllNoMatch. */
  function ReplaceAll(s: string, pattern: string, replacement: string): (r: string)
    ensures |r| == |s| + (|replacement| - |pattern|) * Count(s, pattern)
    decreases |s|
  {
    if pattern == "" then
      InsertAtRunesLength(s, replacement);
      InsertAtRunes(s, replacement)
    else if s == "" then ""
    else if HasPrefix(s, pattern) then
      var d, rest := |replacement| - |pattern|, s[|pattern|..];
      assert d * (1 + Count(rest, pattern)) == d + d * Count(rest, pattern);
      replacement + ReplaceAll(rest, pattern, replacement)
    else [s[0]] + ReplaceAll(s[1..], pattern, replacement)
  }

  /** Where `s` does not start with `sub`, `sub` occurs in `s` exactly when it
      occurs in the tail of `s`. */
  lemma OccursInTail(s: string, sub: string)
    requires s != "" && !HasPrefix(s, sub)
    ensures Occurs(s, sub) <==> Occurs(s[1..], sub)
  {
    if Occurs(s, sub) {
      var i :| 0 <= i <= |s| && OccursAt(s, sub, i);
      assert i != 0;
      assert s[1..][i - 1..i - 1 + |sub|] == s[i..i + |sub|];
      assert OccursAt(s[1..], sub, i - 1);
    }
    if Occurs(s[1..], sub) {
      var i :| 0 <= i <= |s[1..]| && OccursAt(s[1..], sub, i);
      assert s[i + 1..i + 1 + |sub|] == s[1..][i..i + |sub|];
      assert OccursAt(s, sub, i + 1);
    }
  }

  /** A prefix is an occurrence at index 0. */
  lemma PrefixOccurs(s: string, sub: string)
    requires HasPrefix(s, sub)
    ensures Occurs(s, sub)
  {
    assert OccursAt(s, sub, 0);
  }

  /** The count is positive exactly when the pattern occurs: the leftmost
      scan cannot miss every occurrence, and the empty pattern occurs (and is
      counted) at index 0. */
  lemma {:induction false} CountPositiveIffOccurs(s: string, sub: string)
    ensures Count(s, sub) > 0 <==> Occurs(s, sub)
    decreases |s|
  {
    if sub == "" {
      assert OccursAt(s, sub, 0);
    } else if s == "" {
      assert !OccursAt(s, sub, 0);
    } else if HasPrefix(s, sub) {
      PrefixOccurs(s, sub);
    } else {
      OccursInTail(s, sub);
      CountPositiveIffOccurs(s[1..], sub);
    }
  }

  /** Inserting at rune boundaries adds one copy of the replacement per
      boundary. */
  lemma {:induction false} InsertAtRunesLength(s: string, replacement: string)
    ensures |InsertAtRunes(s, replacement)| == |s| + |replacement| * (|s| + 1)
  {
    if s != "" {
      InsertAtRunesLength(s[1..], replacement);
    }
  }

  /** Replacing an empty pattern by the empty string changes nothing. */
  lemma {:induction false} InsertNothing(s: string)
    ensures InsertAtRunes(s, "") == s
  {
    if s != "" {
      InsertNothing(s[1..]);
    }
  }

  /** Replacing a pattern by itself yields the input: Go's early return for
      `old == new` does not change the result. */
  lemma {:induction false} ReplaceAllSelf(s: string, pattern: string)
    ensures ReplaceAll(s, pattern, pattern) == s
    decreases |s|
  {
    if pattern == "" {
      InsertNothing(s);
    } else if s == "" {
    } else if HasPrefix(s, pattern) {
      ReplaceAllSelf(s[|pattern|..], pattern);
      assert s == s[..|pattern|] + s[|pattern|..];
    } else {
      ReplaceAllSelf(s[1..], pattern);
      assert s == [s[0]] + s[1..];
    }
  }

  /** A string in which the pattern does not occur is returned unchanged:
      Go's early return for `Count(s, old) == 0`. (The empty pattern occurs
      in every string.) */
  lemma {:induction false} ReplaceAllNoMatch(s: string, pattern: string, replacement: string)
    requires !Occurs(s, pattern)
    ensures ReplaceAll(s, pattern, replacement) == s
    decreases |s|
  {
    if pattern == "" {
      assert OccursAt(s, pattern, 0);
    } else if s != "" {
      if HasPrefix(s, pattern) {
        PrefixOccurs(s, pattern);
      }
      OccursInTail(s, pattern);
      ReplaceAllNoMatch(s[1..], pattern, replacement);
      assert s == [s[0]] + s[1..];
    }
  }

  /** A leading occurrence of the pattern is replaced, and the scan resumes
      right after it. */
  lemma ReplaceAllLeading(pattern: string, rest: string, replacement: string)
    requires pattern != ""
    ensures ReplaceAll(pattern + rest, pattern, replacement)
         == replacement + ReplaceAll(rest, pattern, replacement)
  {
  }

  /** Removing every occurrence of a pattern (replacing it by "") shortens
      the string by one pattern per occurrence counted, leaves it as it is
      when the pattern is empty or absent, and shortens it otherwise. */
  lemma RemovingAll(s: string, pattern: string)
    ensures |ReplaceAll(s, pattern, "")| == |s| - |pattern| * Count(s, pattern)
    ensures pattern == "" || !Occurs(s, pattern) ==> ReplaceAll(s, pattern, "") == s
    ensures pattern != "" && Occurs(s, pattern) ==> |ReplaceAll(s, pattern, "")| < |s|
  {
    var n := Count(s, pattern);
    assert |ReplaceAll(s, pattern, "")| == |s| - |pattern| * n by {
      assert (|""| - |pattern|) * n == -(|pattern| * n);
    }
    if pattern == "" {
      InsertNothing(s);
    } else if !Occurs(s, pattern) {
      ReplaceAllNoMatch(s, pattern, "");
    } else {
      assert n > 0 by { CountPositiveIffOccurs(s, pattern); }
      AtLeastOnce(|pattern|, n);
    }
  }

  /** A positive number of copies of a non-empty pattern is at least as long
      as the number of copies. */
  lemma AtLeastOnce(width: nat, copies: nat)
    requires width > 0 && copies > 0
    ensures width * copies >= copies > 0
  {
  }
}
