/** The optional value used wherever the program tests a value for
    presence (an unset record key, an undefined field, an unparseable date). */
module Common {
  datatype Option<T> = None | Some(value: T)
}

/** The string operations of JavaScript that the core relies on:
    `toLowerCase`, `includes`, `startsWith`, `trim`, `split`, `join`, and the
    decimal rendering of a number inside a template literal. */
module Strings {
  import opened Common

  /** `toLowerCase` on one character; only the ASCII letters are folded. */
  function LowerChar(c: char): char
  {
    if 'A' <= c <= 'Z' then (c as int + 32) as char else c
  }

  function Lower(s: string): (r: string)
    ensures |r| == |s|
    ensures forall i :: 0 <= i < |s| ==> r[i] == LowerChar(s[i])
  {
    seq(|s|, i requires 0 <= i < |s| => LowerChar(s[i]))
  }

  /** `length`: JavaScript counts UTF-16 code units, so a character above
      U+FFFF (a surrogate pair) counts twice. */
  function Utf16Length(s: string): (r: nat)
    ensures |s| <= r <= 2 * |s|
    ensures (forall i :: 0 <= i < |s| ==> s[i] as int <= 0xFFFF) ==> r == |s|
  {
    if s == [] then 0
    else (if s[0] as int > 0xFFFF then 2 else 1) + Utf16Length(s[1..])
  }

  /** Two emoji make a string of length four. */
  lemma Utf16LengthOfPairs()
    ensures Utf16Length("\U{1F600}\U{1F600}") == 4
    ensures Utf16Length("ab") == 2
  {
    assert "\U{1F600}\U{1F600}"[1..] == "\U{1F600}";
    assert "ab"[1..] == "b";
  }

  predicate StartsWith(s: string, p: string)
  {
    |p| <= |s| && s[..|p|] == p
  }

  /** `t` occurs in `s` at position `k`. */
  predicate OccursAt(s: string, t: string, k: int)
  {
    0 <= k && k + |t| <= |s| && s[k..k + |t|] == t
  }

  /** The leftmost occurrence of `t` in `s` at or after position `k`
      (`indexOf` with a start position). */
  function FindFrom(s: string, t: string, k: nat): (r: Option<nat>)
    ensures r.Some? ==> k <= r.value && OccursAt(s, t, r.value)
    ensures r.Some? ==> forall j :: k <= j < r.value ==> !OccursAt(s, t, j)
    ensures r.None? ==> forall j :: k <= j ==> !OccursAt(s, t, j)
    decreases |s| - k
  {
    if k + |t| > |s| then None
    else if s[k..k + |t|] == t then Some(k)
    else FindFrom(s, t, k + 1)
  }

  /** `s.includes(t)`. */
  predicate Contains(s: string, t: string)
  {
    FindFrom(s, t, 0).Some?
  }

  lemma ContainsIff(s: string, t: string)
    ensures Contains(s, t) <==> exists j :: OccursAt(s, t, j)
  {
    if !Contains(s, t) {
      assert forall j :: 0 <= j ==> !OccursAt(s, t, j);
    }
  }

  /** The text before the leftmost occurrence of `t` does not contain `t`. */
  lemma PrefixBeforeFirst(s: string, t: string, k: nat)
    requires |t| > 0 && FindFrom(s, t, 0) == Some(k)
    ensures !Contains(s[..k], t)
  {
    forall j | 0 <= j ensures !OccursAt(s[..k], t, j) {
      if j + |t| <= k {
        assert s[..k][j..j + |t|] == s[j..j + |t|];
        assert !OccursAt(s, t, j);
      }
    }
    ContainsIff(s[..k], t);
  }

  /** JavaScript's white space and line terminators, the characters `trim`
      removes. */
  predicate IsSpace(c: char)
  {
    c == ' ' || c == '\t' || c == '\n' || c == '\r' || c == '\U{000B}' || c == '\U{000C}'
    || c == '\U{00A0}' || c == '\U{FEFF}' || c == '\U{1680}' || ('\U{2000}' <= c <= '\U{200A}')
    || c == '\U{2028}' || c == '\U{2029}' || c == '\U{202F}' || c == '\U{205F}' || c == '\U{3000}'
  }

  function TrimStart(s: string): (r: string)
    ensures |r| <= |s| && r == s[|s| - |r|..]
    ensures r == [] || !IsSpace(r[0])
    ensures forall i :: 0 <= i < |s| - |r| ==> IsSpace(s[i])
  {
    if s != [] && IsSpace(s[0]) then TrimStart(s[1..]) else s
  }

  function TrimEnd(s: string): (r: string)
    ensures |r| <= |s| && r == s[..|r|]
    ensures r == [] || !IsSpace(r[|r| - 1])
    ensures forall i :: |r| <= i < |s| ==> IsSpace(s[i])
  {
    if s != [] && IsSpace(s[|s| - 1]) then TrimEnd(s[..|s| - 1]) else s
  }

  /** `s.trim()`. */
  function Trim(s: string): string
  {
    TrimEnd(TrimStart(s))
  }

  predicate IsBlank(s: string)
  {
    forall i :: 0 <= i < |s| ==> IsSpace(s[i])
  }

  /** `trim` yields the empty string exactly for blank input, and otherwise
      a slice of the input that starts and ends without white space. */
  lemma TrimProperties(s: string)
    ensures Trim(s) == "" <==> IsBlank(s)
    ensures Trim(s) != "" ==> !IsSpace(Trim(s)[0]) && !IsSpace(Trim(s)[|Trim(s)| - 1])
    ensures exists i :: OccursAt(s, Trim(s), i)
  {
    var a := TrimStart(s);
    var b := TrimEnd(a);
    var i := |s| - |a|;
    assert b == s[i..i + |b|];
    assert OccursAt(s, b, i);
    if b != "" {
      assert s[i] == b[0];
    }
  }

  /** `s.split(sep)` for a non-empty separator: the pieces between the
      leftmost non-overlapping occurrences of `sep`. */
  function Split(s: string, sep: string): (r: seq<string>)
    requires |sep| > 0
    ensures |r| >= 1
    ensures forall i :: 0 <= i < |r| ==> !Contains(r[i], sep)
    decreases |s|
  {
    match FindFrom(s, sep, 0)
    case None => [s]
    case Some(k) =>
      PrefixBeforeFirst(s, sep, k);
      [s[..k]] + Split(s[k + |sep|..], sep)
  }

  /** `parts.join(sep)`. */
  function Join(parts: seq<string>, sep: string): string
  {
    if |parts| == 0 then ""
    else if |parts| == 1 then parts[0]
    else parts[0] + sep + Join(parts[1..], sep)
  }

  /** Number of occurrences of a character. */
  function CountChar(s: string, c: char): nat
  {
    if s == [] then 0 else (if s[0] == c then 1 else 0) + CountChar(s[1..], c)
  }

  lemma CountCharAppend(a: string, b: string, c: char)
    ensures CountChar(a + b, c) == CountChar(a, c) + CountChar(b, c)
  {
    if a == [] {
      assert a + b == b;
    } else {
      assert (a + b)[0] == a[0];
      assert (a + b)[1..] == a[1..] + b;
      CountCharAppend(a[1..], b, c);
    }
  }

  /** Splitting on one character yields one more piece than there are
      occurrences of that character. */
  lemma {:induction false} SplitCharCount(s: string, c: char)
    ensures |Split(s, [c])| == CountChar(s, c) + 1
    decreases |s|
  {
    match FindFrom(s, [c], 0)
    case None =>
      forall i | 0 <= i < |s| ensures s[i] != c {
        assert !OccursAt(s, [c], i);
        assert s[i..i + 1] == [s[i]];
      }
      CountNone(s, c);
    case Some(k) =>
      assert s[k] == c by { assert s[k..k + 1] == [c]; }
      forall i | 0 <= i < k ensures s[i] != c {
        assert !OccursAt(s, [c], i);
        assert s[i..i + 1] == [s[i]];
      }
      CountNone(s[..k], c);
      assert s == s[..k] + [c] + s[k + 1..];
      CountCharAppend(s[..k] + [c], s[k + 1..], c);
      CountCharAppend(s[..k], [c], c);
      SplitCharCount(s[k + 1..], c);
  }

  lemma CountNone(s: string, c: char)
    requires forall i :: 0 <= i < |s| ==> s[i] != c
    ensures CountChar(s, c) == 0
  {
    if s != [] { CountNone(s[1..], c); }
  }

  /** A separator whose occurrences cannot straddle the end of a piece
      that does not contain it: one character, or two distinct ones
      (such as ", "). */
  predicate SimpleSeparator(sep: string)
  {
    |sep| == 1 || (|sep| == 2 && sep[0] != sep[1])
  }

  /** The leftmost separator in `x + sep + rest` is the one after `x`. */
  lemma FindAfterPiece(x: string, sep: string, rest: string)
    requires SimpleSeparator(sep) && !Contains(x, sep)
    ensures FindFrom(x + sep + rest, sep, 0) == Some(|x|)
  {
    var s := x + sep + rest;
    assert s[|x|..|x| + |sep|] == sep;
    assert OccursAt(s, sep, |x|);
    ContainsIff(x, sep);
    forall j | 0 <= j < |x| ensures !OccursAt(s, sep, j) {
      if j + |sep| <= |x| {
        assert s[j..j + |sep|] == x[j..j + |sep|];
        assert !OccursAt(x, sep, j);
      } else if |sep| == 2 {
        assert s[j + 1] == sep[0];
      }
    }
  }

  /** Splitting a join of separator-free pieces gives the pieces back. */
  lemma {:induction false} SplitJoin(parts: seq<string>, sep: string)
    requires SimpleSeparator(sep) && |parts| >= 1
    requires forall i :: 0 <= i < |parts| ==> !Contains(parts[i], sep)
    ensures Split(Join(parts, sep), sep) == parts
    decreases |parts|
  {
    if |parts| == 1 {
      assert FindFrom(parts[0], sep, 0).None?;
    } else {
      var tail := parts[1..];
      assert forall i :: 0 <= i < |tail| ==> tail[i] == parts[i + 1];
      SplitJoin(tail, sep);
      SplitStep(parts[0], sep, Join(tail, sep));
      assert parts == [parts[0]] + tail;
    }
  }

  /** One step of splitting `x + sep + rest` for a separator-free `x`. */
  lemma SplitStep(x: string, sep: string, rest: string)
    requires SimpleSeparator(sep) && !Contains(x, sep)
    ensures Split(x + sep + rest, sep) == [x] + Split(rest, sep)
  {
    FindAfterPiece(x, sep, rest);
    var s := x + sep + rest;
    assert s[..|x|] == x;
    assert s[|x| + |sep|..] == rest;
  }

  function DigitChar(d: nat): char
    requires d < 10
  {
    "0123456789"[d]
  }

  /** The decimal rendering of a natural number, as a template literal
      prints it. */
  function NatToString(n: nat): (r: string)
    ensures |r| >= 1
    ensures forall i :: 0 <= i < |r| ==> '0' <= r[i] <= '9'
  {
    if n < 10 then [DigitChar(n)] else NatToString(n / 10) + [DigitChar(n % 10)]
  }
}
