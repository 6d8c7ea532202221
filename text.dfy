/** The string operations of JavaScript that the SafeStay code relies on:
    `trim`, `toLowerCase`, `includes`, `split`, `replace(/x/g, y)` and
    `replace(/\D/g, '')`.  Strings are sequences of
    Unicode scalar values; `toLowerCase` is modelled on ASCII letters only. */
module Text {
  import Seqs

  /** The code points JavaScript's `trim` removes: the WhiteSpace and
      LineTerminator productions of ECMA-262. */
  predicate IsWhitespace(c: char) {
    || c == ' ' || c == '\t' || c == '\n' || c == '\r'
    || c == '\U{000B}' || c == '\U{000C}' || c == '\U{00A0}' || c == '\U{FEFF}'
    || c == '\U{1680}' || ('\U{2000}' <= c <= '\U{200A}')
    || c == '\U{2028}' || c == '\U{2029}' || c == '\U{202F}' || c == '\U{205F}'
    || c == '\U{3000}'
  }

  predicate AllWhitespace(s: string) {
    forall i :: 0 <= i < |s| ==> IsWhitespace(s[i])
  }

  /** Neither end of `s` is white space. */
  predicate IsTrimmed(s: string) {
    s == [] || (!IsWhitespace(s[0]) && !IsWhitespace(s[|s| - 1]))
  }

  /** How many white-space characters `s` starts with. */
  function LeadingSpace(s: string): (n: nat)
    ensures n <= |s|
    decreases |s|
  {
    if s != [] && IsWhitespace(s[0]) then 1 + LeadingSpace(s[1..]) else 0
  }

  /** How many white-space characters `s` ends with. */
  function TrailingSpace(s: string): (n: nat)
    ensures n <= |s|
    decreases |s|
  {
    if s != [] && IsWhitespace(s[|s| - 1]) then 1 + TrailingSpace(s[..|s| - 1]) else 0
  }

  /** The leading run is all white space and is followed by something else. */
  lemma {:induction false} LeadingSpaceSpec(s: string)
    ensures forall i :: 0 <= i < LeadingSpace(s) ==> IsWhitespace(s[i])
    ensures LeadingSpace(s) < |s| ==> !IsWhitespace(s[LeadingSpace(s)])
    decreases |s|
  {
    if s != [] && IsWhitespace(s[0]) {
      LeadingSpaceSpec(s[1..]);
    }
  }

  /** The trailing run is all white space and is preceded by something else. */
  lemma {:induction false} TrailingSpaceSpec(s: string)
    ensures forall i :: |s| - TrailingSpace(s) <= i < |s| ==> IsWhitespace(s[i])
    ensures TrailingSpace(s) < |s| ==> !IsWhitespace(s[|s| - 1 - TrailingSpace(s)])
    decreases |s|
  {
    if s != [] && IsWhitespace(s[|s| - 1]) {
      TrailingSpaceSpec(s[..|s| - 1]);
    }
  }

  /** A white-space prefix in front of a part that does not start with white
      space is exactly the leading run. */
  lemma {:induction false} LeadingSpaceOfPadded(pad: string, t: string)
    requires AllWhitespace(pad) && (t == [] || !IsWhitespace(t[0]))
    ensures LeadingSpace(pad + t) == |pad|
    decreases |pad|
  {
    if pad == [] {
      assert pad + t == t;
    } else {
      assert (pad + t)[1..] == pad[1..] + t;
      LeadingSpaceOfPadded(pad[1..], t);
    }
  }

  /** The mirror image of `LeadingSpaceOfPadded`. */
  lemma {:induction false} TrailingSpaceOfPadded(t: string, pad: string)
    requires AllWhitespace(pad) && (t == [] || !IsWhitespace(t[|t| - 1]))
    ensures TrailingSpace(t + pad) == |pad|
    decreases |pad|
  {
    if pad == [] {
      assert t + pad == t;
    } else {
      assert (t + pad)[..|t + pad| - 1] == t + pad[..|pad| - 1];
      TrailingSpaceOfPadded(t, pad[..|pad| - 1]);
    }
  }

  /** `s.trim()`: the part of `s` between its leading and its trailing white
      space; it neither starts nor ends with white space. */
  function Trim(s: string): (r: string)
    ensures |r| <= |s|
    ensures IsTrimmed(r)
  {
    var a := LeadingSpace(s);
    var b := TrailingSpace(s[a..]);
    LeadingSpaceSpec(s);
    TrailingSpaceSpec(s[a..]);
    assert b < |s| - a ==> s[|s| - b - 1] == s[a..][|s[a..]| - 1 - b];
    s[a..|s| - b]
  }

  /** Trimming gives the empty string exactly for a blank string. */
  lemma TrimBlank(s: string)
    ensures Trim(s) == [] <==> AllWhitespace(s)
  {
    var a := LeadingSpace(s);
    var b := TrailingSpace(s[a..]);
    LeadingSpaceSpec(s);
    TrailingSpaceSpec(s[a..]);
  }

  /** Trimming a string that is already trimmed leaves it as it is. */
  lemma TrimOfTrimmed(s: string)
    requires IsTrimmed(s)
    ensures Trim(s) == s
  {
    assert LeadingSpace(s) == 0;
    assert s[0..] == s;
  }

  /** White space around a trimmed string is exactly what `trim` removes. */
  lemma TrimPadded(pad1: string, s: string, pad2: string)
    requires IsTrimmed(s) && AllWhitespace(pad1) && AllWhitespace(pad2)
    ensures Trim(pad1 + s + pad2) == s
  {
    var w := pad1 + s + pad2;
    if s == [] {
      assert AllWhitespace(w) by {
        forall i | 0 <= i < |w| ensures IsWhitespace(w[i]) {
          if i < |pad1| { assert w[i] == pad1[i]; } else { assert w[i] == pad2[i - |pad1|]; }
        }
      }
      TrimBlank(w);
    } else {
      assert w == pad1 + (s + pad2);
      LeadingSpaceOfPadded(pad1, s + pad2);
      assert w[|pad1|..] == s + pad2;
      TrailingSpaceOfPadded(s, pad2);
      assert w[|pad1|..|w| - |pad2|] == s;
    }
  }

  function LowerChar(c: char): char {
    if 'A' <= c <= 'Z' then (c as int - 'A' as int + 'a' as int) as char else c
  }

  /** `s.toLowerCase()` on ASCII letters. */
  function ToLower(s: string): (r: string)
    ensures |r| == |s|
    ensures forall i :: 0 <= i < |s| ==> r[i] == LowerChar(s[i])
  {
    seq(|s|, i requires 0 <= i < |s| => LowerChar(s[i]))
  }

  /** No ASCII upper-case letter in `s`. */
  predicate IsLower(s: string) {
    forall i :: 0 <= i < |s| ==> LowerChar(s[i]) == s[i]
  }

  /** The e-mail normalisation of the sign-up handler: lower-case, then trim. */
  function Normalize(email: string): string {
    Trim(ToLower(email))
  }

  /** Trimming removes characters only, so it keeps a string lower-case. */
  lemma TrimKeepsLower(s: string)
    requires IsLower(s)
    ensures IsLower(Trim(s))
  {
    var a := LeadingSpace(s);
    var b := TrailingSpace(s[a..]);
    var r := Trim(s);
    forall i | 0 <= i < |r| ensures LowerChar(r[i]) == r[i] {
      assert r[i] == s[a + i];
    }
  }

  /** A normalised e-mail is trimmed and normalising it again changes nothing. */
  lemma {:induction false} NormalizeIdempotent(email: string)
    ensures IsTrimmed(Normalize(email))
    ensures Normalize(Normalize(email)) == Normalize(email)
  {
    var n := Normalize(email);
    TrimKeepsLower(ToLower(email));
    assert ToLower(n) == n;
    TrimOfTrimmed(n);
  }

  /** `s.startsWith(prefix)`. */
  predicate StartsWith(s: string, prefix: string) {
    |prefix| <= |s| && s[..|prefix|] == prefix
  }

  /** `s.includes(t)`: `t` occurs in `s` at some position. */
  predicate Contains(s: string, t: string)
    decreases |s|
  {
    StartsWith(s, t) || (s != [] && Contains(s[1..], t))
  }

  /** Every string contains the empty string. */
  lemma ContainsEmpty(s: string)
    ensures Contains(s, "")
  {
  }

  /** An occurrence at position `i` is found. */
  lemma {:induction false} ContainsAt(s: string, t: string, i: nat)
    requires i + |t| <= |s| && s[i..i + |t|] == t
    ensures Contains(s, t)
    decreases i
  {
    if i > 0 {
      assert s[1..][i - 1..i - 1 + |t|] == s[i..i + |t|];
      ContainsAt(s[1..], t, i - 1);
    }
  }

  /** `s.split(sep)`: one piece more than there are separators, and no piece
      holds a separator. */
  function Split(s: string, sep: char): (parts: seq<string>)
    ensures |parts| == multiset(s)[sep] + 1
    ensures forall k :: 0 <= k < |parts| ==> sep !in parts[k]
    decreases |s|
  {
    if s == [] then [""]
    else
      var rest := Split(s[1..], sep);
      assert s == [s[0]] + s[1..];
      assert multiset(s)[sep] == (if s[0] == sep then 1 else 0) + multiset(s[1..])[sep];
      if s[0] == sep then [""] + rest
      else [[s[0]] + rest[0]] + rest[1..]
  }

  /** `parts.join(sep)`. */
  function Join(parts: seq<string>, sep: char): string
    requires parts != []
  {
    if |parts| == 1 then parts[0] else parts[0] + [sep] + Join(parts[1..], sep)
  }

  /** Putting a character in front of the first piece puts it in front of
      the joined string. */
  lemma JoinPrepend(c: char, parts: seq<string>, sep: char)
    requires parts != []
    ensures Join([[c] + parts[0]] + parts[1..], sep) == [c] + Join(parts, sep)
  {
    var q := [[c] + parts[0]] + parts[1..];
    if |parts| > 1 {
      assert q[1..] == parts[1..];
    }
  }

  /** Splitting loses nothing: joining the pieces gives the string back. */
  lemma {:induction false} JoinSplit(s: string, sep: char)
    ensures Join(Split(s, sep), sep) == s
    decreases |s|
  {
    if s != [] {
      var rest := Split(s[1..], sep);
      JoinSplit(s[1..], sep);
      if s[0] == sep {
        assert Split(s, sep) == [""] + rest;
        assert ([""] + rest)[1..] == rest;
        assert [sep] + s[1..] == s;
      } else {
        assert Split(s, sep) == [[s[0]] + rest[0]] + rest[1..];
        JoinPrepend(s[0], rest, sep);
        assert [s[0]] + s[1..] == s;
      }
    }
  }

  /** A string without the separator is one piece. */
  lemma {:induction false} SplitNoSeparator(a: string, sep: char)
    requires sep !in a
    ensures Split(a, sep) == [a]
    decreases |a|
  {
    if a != [] {
      SplitNoSeparator(a[1..], sep);
      assert [a[0]] + a[1..] == a;
    }
  }

  /** A piece followed by the separator splits off as the first piece. */
  lemma {:induction false} SplitAfterPiece(a: string, sep: char, b: string)
    requires sep !in a
    ensures Split(a + [sep] + b, sep) == [a] + Split(b, sep)
    decreases |a|
  {
    var s := a + [sep] + b;
    if a == [] {
      assert s == [sep] + b && s[1..] == b;
    } else {
      assert s[1..] == a[1..] + [sep] + b;
      SplitAfterPiece(a[1..], sep, b);
      assert [a[0]] + a[1..] == a;
    }
  }

  /** Joining pieces that hold no separator and splitting again gives the
      pieces back. */
  lemma {:induction false} SplitJoin(parts: seq<string>, sep: char)
    requires parts != []
    requires forall k :: 0 <= k < |parts| ==> sep !in parts[k]
    ensures Split(Join(parts, sep), sep) == parts
  {
    if |parts| == 1 {
      SplitNoSeparator(parts[0], sep);
    } else {
      SplitJoin(parts[1..], sep);
      SplitAfterPiece(parts[0], sep, Join(parts[1..], sep));
      assert [parts[0]] + parts[1..] == parts;
    }
  }

  /** `s.replace(/from/g, to)` for a one-character pattern. */
  function ReplaceAll(s: string, from: char, to: char): string {
    seq(|s|, i requires 0 <= i < |s| => if s[i] == from then to else s[i])
  }

  /** After replacing every `from` by a different `to`, no `from` is left and
      every other character is where it was. */
  lemma ReplaceAllRemoves(s: string, from: char, to: char)
    requires from != to
    ensures |ReplaceAll(s, from, to)| == |s|
    ensures from !in ReplaceAll(s, from, to)
    ensures forall i :: 0 <= i < |s| && s[i] != from ==> ReplaceAll(s, from, to)[i] == s[i]
  {
  }

  /** On a string without `to`, replacing `to` back by `from` undoes the
      replacement. */
  lemma ReplaceAllUndone(s: string, from: char, to: char)
    requires to !in s
    ensures ReplaceAll(ReplaceAll(s, from, to), to, from) == s
  {
    var t := ReplaceAll(ReplaceAll(s, from, to), to, from);
    forall i | 0 <= i < |s| ensures t[i] == s[i] {
      assert s[i] != to;
    }
  }

  predicate IsDigit(c: char) {
    '0' <= c <= '9'
  }

  predicate AllDigits(s: string) {
    forall i :: 0 <= i < |s| ==> IsDigit(s[i])
  }

  /** `s.replace(/\D/g, '')`: the digits of `s`, in order. */
  function DigitsOnly(s: string): (r: string)
    ensures AllDigits(r)
    ensures |r| <= |s|
  {
    if s == [] then []
    else if IsDigit(s[0]) then [s[0]] + DigitsOnly(s[1..])
    else DigitsOnly(s[1..])
  }

  /** Removing the non-digits is filtering by `IsDigit`: every digit is kept,
      as often as it occurs and in its order. */
  lemma {:induction false} DigitsOnlyFilter(s: string)
    ensures DigitsOnly(s) == Seqs.Filter(s, IsDigit)
  {
    if s != [] {
      DigitsOnlyFilter(s[1..]);
    }
  }

  /** A string that has only digits is kept whole. */
  lemma {:induction false} DigitsOnlyOfDigits(s: string)
    requires AllDigits(s)
    ensures DigitsOnly(s) == s
  {
    if s != [] {
      DigitsOnlyOfDigits(s[1..]);
    }
  }

  /** `String(n)` for a natural number: its decimal digits. */
  function Decimal(n: nat): (s: string)
    ensures s != []
    ensures AllDigits(s)
  {
    var d := ['0' + (n % 10) as char];
    if n < 10 then d else Decimal(n / 10) + d
  }
}
