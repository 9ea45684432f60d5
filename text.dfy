/**
 * The JavaScript string operations the application relies on, written over `seq<char>`:
 * `trim`, blank tests, `startsWith`, `includes`, `split`/`join`, `toLowerCase`
 * (ASCII letters only) and the decimal rendering of a non-negative number.
 */
module Text {
  import opened Wrappers

  /** A JavaScript-truthy optional string: present and non-empty. */
  predicate Truthy(s: Option<string>) {
    s.Some? && s.value != ""
  }

  /** `s || fallback` for an optional string. */
  function OrElse(s: Option<string>, fallback: string): (r: string)
    ensures Truthy(s) ==> r == s.value
    ensures !Truthy(s) ==> r == fallback
  {
    if Truthy(s) then s.value else fallback
  }

  /** The characters `String.prototype.trim` removes (white space and line terminators). */
  predicate IsSpace(c: char) {
    c == ' ' || c == '\t' || c == '\n' || c == '\r' || c == '\U{000B}' || c == '\U{000C}'
    || c == '\U{00A0}' || c == '\U{1680}' || ('\U{2000}' <= c <= '\U{200A}')
    || c == '\U{2028}' || c == '\U{2029}' || c == '\U{202F}' || c == '\U{205F}'
    || c == '\U{3000}' || c == '\U{FEFF}'
  }

  /** A string that `trim()` turns into the empty string. */
  predicate IsBlank(s: string) {
    forall i :: 0 <= i < |s| ==> IsSpace(s[i])
  }

  function TrimStart(s: string): (r: string)
    ensures |r| <= |s| && r == s[|s| - |r|..]
    ensures IsBlank(s[..|s| - |r|])
    ensures |r| > 0 ==> !IsSpace(r[0])
  {
    if |s| > 0 && IsSpace(s[0]) then
      var r := TrimStart(s[1..]);
      assert s[1..][..|s[1..]| - |r|] == s[1..|s| - |r|];
      r
    else s
  }

  function TrimEnd(s: string): (r: string)
    ensures |r| <= |s| && r == s[..|r|]
    ensures IsBlank(s[|r|..])
    ensures |r| > 0 ==> !IsSpace(r[|r| - 1])
  {
    if |s| > 0 && IsSpace(s[|s| - 1]) then
      var r := TrimEnd(s[..|s| - 1]);
      assert s[..|s| - 1][|r|..] == s[|r|..|s| - 1];
      r
    else s
  }

  /** `s.trim()`: the longest middle part of `s` that neither starts nor ends with white space. */
  function Trim(s: string): (r: string)
    ensures |r| <= |s|
    ensures |r| == 0 <==> IsBlank(s)
    ensures |r| > 0 ==> !IsSpace(r[0]) && !IsSpace(r[|r| - 1])
    ensures exists i :: MiddleAt(s, r, i)
  {
    var a := TrimStart(s);
    var r := TrimEnd(a);
    TrimBlank(s, a, r);
    TrimMiddle(s, a, r);
    r
  }

  /** `r` is the slice of `s` at `i`, with only white space before and after it. */
  predicate MiddleAt(s: string, r: string, i: int) {
    0 <= i && i + |r| <= |s| && r == s[i..i + |r|] && IsBlank(s[..i]) && IsBlank(s[i + |r|..])
  }

  /** What `trim` keeps is a slice of the string with only white space before and after it. */
  lemma TrimMiddle(s: string, a: string, r: string)
    requires a == TrimStart(s) && r == TrimEnd(a)
    ensures exists i :: MiddleAt(s, r, i)
  {
    var i := |s| - |a|;
    assert a == s[i..];
    assert r == s[i..i + |r|];
    assert s[i + |r|..] == a[|r|..];
    assert MiddleAt(s, r, i);
  }

  lemma TrimBlank(s: string, a: string, r: string)
    requires a == TrimStart(s) && r == TrimEnd(a)
    ensures |r| == 0 <==> IsBlank(s)
  {
    if |r| == 0 {
      assert |a| == 0;
      assert s[..|s| - |a|] == s;
    }
  }

  /** Trimming a trimmed string changes nothing. */
  lemma TrimIdempotent(s: string)
    ensures Trim(Trim(s)) == Trim(s)
  {
    var r := Trim(s);
    if |r| > 0 {
      assert TrimStart(r) == r;
      assert TrimEnd(r) == r;
    }
  }

  /** `s.startsWith(p)`. */
  predicate StartsWith(s: string, p: string) {
    |p| <= |s| && s[..|p|] == p
  }

  /** `s.endsWith(p)`. */
  predicate EndsWith(s: string, p: string) {
    |p| <= |s| && s[|s| - |p|..] == p
  }

  lemma AppendAffixes(a: string, b: string)
    ensures StartsWith(a + b, a) && EndsWith(a + b, b)
  {
    assert (a + b)[..|a|] == a;
    assert (a + b)[|a|..] == b;
  }

  lemma EndsWithPrefixed(a: string, b: string, p: string)
    requires EndsWith(b, p)
    ensures EndsWith(a + b, p)
  {
    assert (a + b)[|a + b| - |p|..] == b[|b| - |p|..];
  }

  lemma StartsWithExtend(s: string, p: string, c: string)
    requires StartsWith(s, p)
    ensures StartsWith(s + c, p)
  {
    assert (s + c)[..|p|] == s[..|p|];
  }

  predicate OccursAt(s: string, sub: string, i: int) {
    0 <= i && i + |sub| <= |s| && s[i..i + |sub|] == sub
  }

  /** `s.includes(sub)`. */
  predicate Contains(s: string, sub: string) {
    exists i | 0 <= i <= |s| - |sub| :: OccursAt(s, sub, i)
  }

  /** `parts.join(sep)`. */
  function Join(parts: seq<string>, sep: string): string {
    if |parts| == 0 then ""
    else if |parts| == 1 then parts[0]
    else parts[0] + sep + Join(parts[1..], sep)
  }

  /** `s.split(sep)` for a one-character separator: the pieces between separators, empty ones included. */
  function Split(s: string, sep: char): (pieces: seq<string>)
    ensures |pieces| >= 1
    ensures forall k :: 0 <= k < |pieces| ==> sep !in pieces[k]
  {
    if |s| == 0 then [""]
    else
      var rest := Split(s[1..], sep);
      if s[0] == sep then [""] + rest
      else [[s[0]] + rest[0]] + rest[1..]
  }

  /** Joining the pieces of a split with the separator gives the string back. */
  lemma {:induction false} JoinSplit(s: string, sep: char)
    ensures Join(Split(s, sep), [sep]) == s
  {
    if |s| > 0 {
      var rest := Split(s[1..], sep);
      JoinSplit(s[1..], sep);
      if s[0] == sep {
        assert Split(s, sep) == [""] + rest;
        assert Join([""] + rest, [sep]) == "" + [sep] + Join(rest, [sep]);
        assert s == [s[0]] + s[1..];
      } else {
        var ps := Split(s, sep);
        assert ps == [[s[0]] + rest[0]] + rest[1..];
        if |rest| == 1 {
          assert Join(ps, [sep]) == [s[0]] + rest[0];
        } else {
          assert ps[1..] == rest[1..];
          assert Join(rest, [sep]) == rest[0] + [sep] + Join(rest[1..], [sep]);
          assert Join(ps, [sep]) == [s[0]] + rest[0] + [sep] + Join(rest[1..], [sep]);
        }
        assert s == [s[0]] + s[1..];
      }
    }
  }

  /**
   * The scan behind `s.split(sep)`: the current piece starts at `start`, and `sep` is looked for
   * from `i` on, left to right; each occurrence found ends a piece and starts the next one after it.
   * The result is the last piece.
   */
  function PieceFrom(s: string, sep: string, start: nat, i: nat): (r: string)
    requires |sep| > 0 && start <= i <= |s|
    ensures |r| <= |s| - start && r == s[|s| - |r|..]
    decreases |s| - i
  {
    if i + |sep| > |s| then s[start..]
    else if OccursAt(s, sep, i) then PieceFrom(s, sep, i + |sep|, i + |sep|)
    else PieceFrom(s, sep, start, i + 1)
  }

  /** `s.split(sep).pop()`: what follows the last occurrence of `sep` found by the scan, or all of `s`. */
  function LastPiece(s: string, sep: string): string
    requires |sep| > 0
  {
    PieceFrom(s, sep, 0, 0)
  }

  /** An occurrence in a suffix is an occurrence in the whole string, shifted. */
  lemma OccursAtShift(s: string, start: nat, sep: string, k: nat)
    requires start <= |s|
    ensures OccursAt(s[start..], sep, k) <==> OccursAt(s, sep, start + k)
  {
    if k + |sep| <= |s| - start {
      assert s[start..][k..k + |sep|] == s[start + k..start + k + |sep|];
    }
  }

  /** A suffix without occurrences in the whole string has none of its own. */
  lemma SuffixHasNoSep(s: string, sep: string, start: nat)
    requires start <= |s|
    requires forall j :: start <= j ==> !OccursAt(s, sep, j)
    ensures !Contains(s[start..], sep)
  {
    forall k | 0 <= k <= |s| - start - |sep|
      ensures !OccursAt(s[start..], sep, k)
    {
      OccursAtShift(s, start, sep, k);
    }
  }

  /** When the scan has passed no occurrence since the piece began, the piece holds none. */
  lemma {:induction false} PieceFromHasNoSep(s: string, sep: string, start: nat, i: nat)
    requires |sep| > 0 && start <= i <= |s|
    requires forall j :: start <= j < i ==> !OccursAt(s, sep, j)
    ensures !Contains(PieceFrom(s, sep, start, i), sep)
    decreases |s| - i
  {
    if i + |sep| > |s| {
      assert forall j :: i <= j ==> !OccursAt(s, sep, j);
      SuffixHasNoSep(s, sep, start);
      assert PieceFrom(s, sep, start, i) == s[start..];
      assert !Contains(PieceFrom(s, sep, start, i), sep);
    } else if OccursAt(s, sep, i) {
      PieceFromHasNoSep(s, sep, i + |sep|, i + |sep|);
      assert PieceFrom(s, sep, start, i) == PieceFrom(s, sep, i + |sep|, i + |sep|);
      assert !Contains(PieceFrom(s, sep, start, i), sep);
    } else {
      PieceFromHasNoSep(s, sep, start, i + 1);
      assert PieceFrom(s, sep, start, i) == PieceFrom(s, sep, start, i + 1);
      assert !Contains(PieceFrom(s, sep, start, i), sep);
    }
  }

  /** Without occurrences from `start` on, the piece runs to the end. */
  lemma {:induction false} PieceFromWhole(s: string, sep: string, start: nat, i: nat)
    requires |sep| > 0 && start <= i <= |s|
    requires forall j :: start <= j <= |s| - |sep| ==> !OccursAt(s, sep, j)
    ensures PieceFrom(s, sep, start, i) == s[start..]
    decreases |s| - i
  {
    if i + |sep| <= |s| {
      PieceFromWhole(s, sep, start, i + 1);
    }
  }

  /** The piece either begins where the scan began, or right after an occurrence. */
  lemma {:induction false} PieceFromAfterOccurrence(s: string, sep: string, start: nat, i: nat)
    requires |sep| > 0 && start <= i <= |s|
    ensures var n := |PieceFrom(s, sep, start, i)|;
            n == |s| - start || OccursAt(s, sep, |s| - n - |sep|)
    decreases |s| - i
  {
    if i + |sep| <= |s| {
      if OccursAt(s, sep, i) {
        PieceFromAfterOccurrence(s, sep, i + |sep|, i + |sep|);
      } else {
        PieceFromAfterOccurrence(s, sep, start, i + 1);
      }
    }
  }

  /** The last piece holds no occurrence of `sep`. */
  lemma LastPieceHasNoSep(s: string, sep: string)
    requires |sep| > 0
    ensures !Contains(LastPiece(s, sep), sep)
  {
    PieceFromHasNoSep(s, sep, 0, 0);
  }

  /** When `sep` does not occur, the last piece is all of `s`. */
  lemma LastPieceWhole(s: string, sep: string)
    requires |sep| > 0 && !Contains(s, sep)
    ensures LastPiece(s, sep) == s
  {
    PieceFromWhole(s, sep, 0, 0);
    assert s[0..] == s;
  }

  /** When `sep` occurs, the last piece follows directly on an occurrence. */
  lemma LastPieceAfterOccurrence(s: string, sep: string)
    requires |sep| > 0 && Contains(s, sep)
    ensures OccursAt(s, sep, |s| - |LastPiece(s, sep)| - |sep|)
  {
    PieceFromAfterOccurrence(s, sep, 0, 0);
    LastPieceHasNoSep(s, sep);
    assert s[0..] == s;
  }

  /** A part of a string holds no occurrence the string itself lacks. */
  lemma ContainsSlice(s: string, i: nat, j: nat, sub: string)
    requires i <= j <= |s| && Contains(s[i..j], sub)
    ensures Contains(s, sub)
  {
    var t := s[i..j];
    var k :| 0 <= k <= |t| - |sub| && OccursAt(t, sub, k);
    assert forall q :: 0 <= q < |t| ==> t[q] == s[i + q];
    assert t[k..k + |sub|] == s[i + k..i + k + |sub|];
    assert OccursAt(s, sub, i + k);
  }

  /** Trimming never creates an occurrence. */
  lemma TrimContains(s: string, sub: string)
    ensures Contains(Trim(s), sub) ==> Contains(s, sub)
  {
    var a := TrimStart(s);
    var r := Trim(s);
    var i := |s| - |a|;
    assert r == a[..|r|] && a == s[i..];
    assert r == s[i..i + |r|];
    if Contains(r, sub) {
      ContainsSlice(s, i, i + |r|, sub);
    }
  }

  function LowerChar(c: char): char {
    if 'A' <= c <= 'Z' then (c as int - 'A' as int + 'a' as int) as char else c
  }

  /** `s.toLowerCase()`, restricted to the ASCII letters. */
  function ToLower(s: string): (r: string)
    ensures |r| == |s|
    ensures forall i :: 0 <= i < |s| ==> r[i] == LowerChar(s[i])
  {
    if |s| == 0 then "" else [LowerChar(s[0])] + ToLower(s[1..])
  }

  function DigitChar(d: nat): (c: char)
    requires d < 10
    ensures '0' <= c <= '9'
  {
    ("0123456789")[d]
  }

  /** `String(n)` for a non-negative integer: its decimal digits, without leading zeros. */
  function NatToString(n: nat): (r: string)
    ensures |r| >= 1
    ensures forall i :: 0 <= i < |r| ==> '0' <= r[i] <= '9'
  {
    if n < 10 then [DigitChar(n)] else NatToString(n / 10) + [DigitChar(n % 10)]
  }

  lemma DigitCharInjective(a: nat, b: nat)
    requires a < 10 && b < 10 && DigitChar(a) == DigitChar(b)
    ensures a == b
  {
  }

  /** Distinct numbers are rendered as distinct strings. */
  lemma {:induction false} NatToStringInjective(m: nat, n: nat)
    requires NatToString(m) == NatToString(n)
    ensures m == n
  {
    var rm, rn := NatToString(m), NatToString(n);
    if m < 10 && n < 10 {
      DigitCharInjective(m, n);
    } else if m >= 10 && n >= 10 {
      assert rm[..|rm| - 1] == NatToString(m / 10);
      assert rn[..|rn| - 1] == NatToString(n / 10);
      NatToStringInjective(m / 10, n / 10);
      DigitCharInjective(m % 10, n % 10);
    }
  }
}
