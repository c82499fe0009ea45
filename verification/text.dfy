/** String primitives the tools rely on, with Python's meaning: substring
    containment (`t in s`), `str.lower()` (restricted to ASCII letters),
    the first token of `str.split()`, and `str(int)`. */
module Text {
  import opened Base

  /** `s.startswith(p)`, decided character by character. */
  predicate StartsWith(s: string, p: string)
  {
    |p| <= |s| && (|p| == 0 || (s[0] == p[0] && StartsWith(s[1..], p[1..])))
  }

  /** Python's `t in s` for strings: `t` occurs as a contiguous substring. */
  predicate Contains(s: string, t: string)
    decreases |s|
  {
    StartsWith(s, t) || (|s| > 0 && Contains(s[1..], t))
  }

  lemma {:induction false} StartsWithIsPrefix(s: string, p: string)
    ensures StartsWith(s, p) <==> |p| <= |s| && s[..|p|] == p
  {
    if |p| > 0 && |p| <= |s| {
      StartsWithIsPrefix(s[1..], p[1..]);
      assert s[..|p|] == [s[0]] + s[1..][..|p| - 1];
      assert p == [p[0]] + p[1..];
    }
  }

  /** `t` occurs in `s` starting at index `i`. */
  predicate OccursAt(s: string, t: string, i: int)
  {
    0 <= i <= |s| - |t| && s[i..i + |t|] == t
  }

  /** `Contains` agrees with the slice-based definition of a substring. */
  lemma {:induction false} ContainsIsSlice(s: string, t: string)
    ensures Contains(s, t) <==> exists i :: OccursAt(s, t, i)
    decreases |s|
  {
    StartsWithIsPrefix(s, t);
    if StartsWith(s, t) {
      assert OccursAt(s, t, 0);
    }
    if |s| > 0 {
      ContainsIsSlice(s[1..], t);
      if exists i :: OccursAt(s, t, i) {
        var i :| OccursAt(s, t, i);
        if i > 0 {
          OccursShift(s, t, i - 1);
        }
      }
      if exists j :: OccursAt(s[1..], t, j) {
        var j :| OccursAt(s[1..], t, j);
        OccursShift(s, t, j);
      }
    } else if exists i :: OccursAt(s, t, i) {
      var i :| OccursAt(s, t, i);
      assert i == 0 && t == [];
    }
  }

  /** An occurrence in the tail of `s` is one position further on in `s`. */
  lemma OccursShift(s: string, t: string, j: nat)
    requires |s| > 0
    ensures OccursAt(s[1..], t, j) <==> OccursAt(s, t, j + 1)
  {
    if j + |t| <= |s[1..]| {
      assert s[1..][j..j + |t|] == s[j + 1..j + 1 + |t|];
    }
  }

  lemma OccursContains(s: string, t: string, i: int)
    requires OccursAt(s, t, i)
    ensures Contains(s, t)
  {
    ContainsIsSlice(s, t);
  }

  lemma {:induction false} StartsWithKeepsChars(s: string, p: string, c: char)
    requires StartsWith(s, p) && c in p
    ensures c in s
  {
    if p[0] != c {
      assert c in p[1..];
      StartsWithKeepsChars(s[1..], p[1..], c);
    }
  }

  /** A token with a character that never occurs in `s` is not a substring of it. */
  lemma {:induction false} ForeignCharExcludes(s: string, t: string, c: char)
    requires c in t && c !in s
    ensures !Contains(s, t)
    decreases |s|
  {
    if StartsWith(s, t) {
      StartsWithKeepsChars(s, t, c);
    }
    if |s| > 0 {
      ForeignCharExcludes(s[1..], t, c);
    }
  }

  /** Some character of `t` at or after index `k` never occurs in `s`. */
  predicate ForeignFrom(s: string, t: string, k: nat)
    decreases |t| - k
  {
    k < |t| && (t[k] !in s || ForeignFrom(s, t, k + 1))
  }

  /** A token with a character foreign to `s` is not a substring of `s`. */
  lemma {:induction false} ForeignExcludes(s: string, t: string, k: nat)
    requires ForeignFrom(s, t, k)
    ensures !Contains(s, t)
    decreases |t| - k
  {
    if t[k] !in s {
      ForeignCharExcludes(s, t, t[k]);
    } else {
      ForeignExcludes(s, t, k + 1);
    }
  }

  /** The characters Python's `str.isspace()` (and so `str.split()`) treats as whitespace. */
  predicate IsSpace(c: char)
  {
    || c == ' ' || c == '\t' || c == '\n' || c == '\r'
    || c == '\U{000B}' || c == '\U{000C}'
    || ('\U{001C}' <= c <= '\U{001F}')
    || c == '\U{0085}' || c == '\U{00A0}' || c == '\U{1680}'
    || ('\U{2000}' <= c <= '\U{200A}')
    || c == '\U{2028}' || c == '\U{2029}' || c == '\U{202F}' || c == '\U{205F}'
    || c == '\U{3000}'
  }

  predicate NoSpace(s: string)
  {
    forall i :: 0 <= i < |s| ==> !IsSpace(s[i])
  }

  predicate AllSpace(s: string)
  {
    forall i :: 0 <= i < |s| ==> IsSpace(s[i])
  }

  /** Drops the leading whitespace of `s`. */
  function TrimStart(s: string): (r: string)
    ensures |r| <= |s| && r == s[|s| - |r|..]
    ensures AllSpace(s[..|s| - |r|])
    ensures r == [] || !IsSpace(r[0])
  {
    if |s| > 0 && IsSpace(s[0]) then
      var r := TrimStart(s[1..]);
      assert s[..|s| - |r|] == [s[0]] + s[1..][..|s[1..]| - |r|];
      r
    else
      s
  }

  /** The longest whitespace-free prefix of `s`. */
  function TakeWord(s: string): (w: string)
    ensures |w| <= |s| && w == s[..|w|]
    ensures NoSpace(w)
    ensures |w| == |s| || IsSpace(s[|w|])
  {
    if |s| == 0 || IsSpace(s[0]) then
      []
    else
      var w := TakeWord(s[1..]);
      assert [s[0]] + w == s[..|w| + 1];
      [s[0]] + w
  }

  /** `s.split()[0]` when `s.split()` is non-empty; `None` when indexing would
      raise `IndexError` because `s` is empty or all whitespace. */
  function FirstToken(s: string): (r: Option<string>)
    ensures r.None? <==> AllSpace(s)
    ensures r.Some? ==>
      && |r.value| > 0 && NoSpace(r.value)
      && exists k :: 0 <= k && k + |r.value| <= |s|
           && AllSpace(s[..k]) && s[k..k + |r.value|] == r.value
           && (k + |r.value| == |s| || IsSpace(s[k + |r.value|]))
  {
    var t := TrimStart(s);
    if t == [] then
      None
    else
      var w := TakeWord(t);
      var k := |s| - |t|;
      assert s[k..k + |w|] == w;
      assert w != [] by { assert !IsSpace(t[0]); }
      Some(w)
  }

  lemma {:induction false} TakeWordWhole(s: string)
    requires NoSpace(s)
    ensures TakeWord(s) == s
  {
    if |s| > 0 {
      TakeWordWhole(s[1..]);
    }
  }

  lemma {:induction false} TakeWordStops(w: string, rest: string)
    requires NoSpace(w) && (rest == [] || IsSpace(rest[0]))
    ensures TakeWord(w + rest) == w
  {
    if |w| > 0 {
      assert (w + rest)[1..] == w[1..] + rest;
      TakeWordStops(w[1..], rest);
    }
  }

  /** A word followed by whitespace is the first token of the line. */
  lemma FirstTokenOfWord(w: string, rest: string)
    requires |w| > 0 && NoSpace(w) && (rest == [] || IsSpace(rest[0]))
    ensures FirstToken(w + rest) == Some(w)
  {
    assert (w + rest)[0] == w[0];
    TakeWordStops(w, rest);
  }

  /** A non-empty word without whitespace splits into itself. */
  lemma WordIsOwnToken(s: string)
    requires |s| > 0 && NoSpace(s)
    ensures FirstToken(s) == Some(s)
  {
    TakeWordWhole(s);
  }

  /** Python's `str.lower()` on ASCII letters; other characters are kept. */
  function LowerChar(c: char): (d: char)
    ensures 'A' <= c <= 'Z' ==> d as int == c as int + 32
    ensures !('A' <= c <= 'Z') ==> d == c
  {
    if 'A' <= c <= 'Z' then (c as int + 32) as char else c
  }

  function Lower(s: string): (r: string)
    ensures |r| == |s|
    ensures forall i :: 0 <= i < |s| ==> r[i] == LowerChar(s[i])
  {
    seq(|s|, i requires 0 <= i < |s| => LowerChar(s[i]))
  }

  /** A string with no upper-case ASCII letter is its own lower-case form. */
  lemma LowerFixes(s: string)
    requires forall i :: 0 <= i < |s| ==> !('A' <= s[i] <= 'Z')
    ensures Lower(s) == s
  {
  }

  function DigitChar(d: nat): char
    requires d < 10
  {
    "0123456789"[d]
  }

  function DigitValue(c: char): int
  {
    if '0' <= c <= '9' then c as int - '0' as int else -1
  }

  predicate IsDigits(s: string)
  {
    forall i :: 0 <= i < |s| ==> '0' <= s[i] <= '9'
  }

  /** Reads a string of decimal digits back into the number it denotes. */
  function DecimalValue(s: string): nat
    requires IsDigits(s)
  {
    if |s| == 0 then 0 else 10 * DecimalValue(s[..|s| - 1]) + DigitValue(s[|s| - 1])
  }

  /** `str(n)` for a non-negative integer: no leading zeros, and it reads back as `n`. */
  function NatToString(n: nat): (r: string)
    ensures |r| > 0 && IsDigits(r)
    ensures DecimalValue(r) == n
    ensures |r| > 1 ==> r[0] != '0'
  {
    if n < 10 then
      [DigitChar(n)]
    else
      var r := NatToString(n / 10) + [DigitChar(n % 10)];
      assert r[..|r| - 1] == NatToString(n / 10);
      r
  }

  /** `str(i)` for any integer. */
  function IntToString(i: int): (r: string)
    ensures i >= 0 ==> r == NatToString(i)
    ensures i < 0 ==> r == "-" + NatToString(-i)
  {
    if i >= 0 then NatToString(i) else "-" + NatToString(-i)
  }
}
