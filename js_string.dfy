/**
 * The JavaScript string operations that the patch parser and the graph
 * rely on, written over `string` (a sequence of characters): `parseInt`,
 * `split`, `replace` of the first occurrence, `toUpperCase`, the
 * regular-expression classes `\s` and `.`, and number-to-text conversion
 * as a template literal performs it.
 */
module JsString {
  import opened Common

  predicate IsDigit(c: char) { '0' <= c <= '9' }

  predicate IsHexDigit(c: char) { IsDigit(c) || 'a' <= c <= 'f' || 'A' <= c <= 'F' }

  predicate AllDigits(s: string) { forall i :: 0 <= i < |s| ==> IsDigit(s[i]) }

  /** The characters that a regular-expression `.` does not match. */
  predicate IsLineTerminator(c: char) {
    c == '\n' || c == '\r' || c == '\U{2028}' || c == '\U{2029}'
  }

  /** The characters of the regular-expression class `\s`; also what `parseInt` skips first. */
  predicate IsWhitespace(c: char) {
    || c == '\t' || c == '\n' || c == '\U{B}' || c == '\U{C}' || c == '\r' || c == ' '
    || c == '\U{A0}' || c == '\U{1680}' || ('\U{2000}' <= c <= '\U{200A}')
    || c == '\U{2028}' || c == '\U{2029}' || c == '\U{202F}' || c == '\U{205F}'
    || c == '\U{3000}' || c == '\U{FEFF}'
  }

  predicate StartsWith(s: string, c: char) { |s| > 0 && s[0] == c }

  /** True when some character of `s` is in `cs` (`s.includes(..) || ...`). */
  predicate ContainsAny(s: string, cs: set<char>) { exists i :: 0 <= i < |s| && s[i] in cs }

  /** `s.includes(sub)`. */
  predicate Contains(s: string, sub: string)
    decreases |s|
  {
    sub <= s || (s != [] && Contains(s[1..], sub))
  }

  /** The characters of `s` that satisfy `keep`, in order (a global regular-expression replace by ''). */
  function Filter(s: string, keep: char -> bool): (r: string)
    ensures |r| <= |s|
    ensures forall i :: 0 <= i < |r| ==> keep(r[i]) && r[i] in s
    ensures forall i :: 0 <= i < |s| && keep(s[i]) ==> s[i] in r
    ensures (forall i :: 0 <= i < |s| ==> keep(s[i])) ==> r == s
    decreases |s|
  {
    if s == [] then []
    else
      assert s == [s[0]] + s[1..];
      assert forall i :: 1 <= i < |s| ==> s[i] == s[1..][i - 1];
      if keep(s[0]) then [s[0]] + Filter(s[1..], keep)
      else Filter(s[1..], keep)
  }

  /** Filtering works character by character: a concatenation filters to the concatenation of the filters. */
  lemma {:induction false} FilterAppend(a: string, b: string, keep: char -> bool)
    ensures Filter(a + b, keep) == Filter(a, keep) + Filter(b, keep)
    decreases |a|
  {
    if a != [] {
      assert (a + b)[0] == a[0] && (a + b)[1..] == a[1..] + b;
      FilterAppend(a[1..], b, keep);
      if keep(a[0]) {
        assert Filter(a + b, keep) == [a[0]] + Filter(a[1..] + b, keep);
      } else {
        assert Filter(a + b, keep) == Filter(a[1..] + b, keep);
      }
    } else {
      assert a + b == b;
    }
  }

  /** A single character is kept exactly when it satisfies `keep`. */
  lemma FilterOne(c: char, keep: char -> bool)
    ensures Filter([c], keep) == if keep(c) then [c] else []
  {
    assert [c][1..] == [];
  }

  /** `s.replace(pat, '')`: removes the first occurrence of `pat`, if any. */
  function ReplaceFirst(s: string, pat: string): (r: string)
    decreases |s|
  {
    if pat <= s then s[|pat|..]
    else if s == [] then s
    else [s[0]] + ReplaceFirst(s[1..], pat)
  }

  /** Replacing a prefix removes it. */
  lemma ReplaceFirstPrefix(pat: string, rest: string)
    ensures ReplaceFirst(pat + rest, pat) == rest
  {
    assert pat <= pat + rest;
    assert (pat + rest)[|pat|..] == rest;
  }

  /** Removing a one-character pattern that `s` does not contain leaves `s` as it is. */
  lemma {:induction false} ReplaceFirstAbsent(s: string, c: char)
    requires c !in s
    ensures ReplaceFirst(s, [c]) == s
    decreases |s|
  {
    if s != [] {
      assert !([c] <= s) by { assert s[0] != c; }
      assert c !in s[1..];
      ReplaceFirstAbsent(s[1..], c);
    }
  }

  /** Removing the first `c` from `s + [c] + t`, where `s` has no `c`, gives `s + t`. */
  lemma {:induction false} ReplaceFirstSplits(s: string, c: char, t: string)
    requires c !in s
    ensures ReplaceFirst(s + [c] + t, [c]) == s + t
    decreases |s|
  {
    if s != [] {
      assert (s + [c] + t)[1..] == s[1..] + [c] + t;
      ReplaceFirstSplits(s[1..], c, t);
    } else {
      assert [c] <= [c] + t;
    }
  }

  /** ASCII upper case; the Unicode case mapping of `toUpperCase` is not modelled. */
  function UpperChar(c: char): char {
    if 'a' <= c <= 'z' then (c as int - 'a' as int + 'A' as int) as char else c
  }

  function ToUpper(s: string): (r: string)
    ensures |r| == |s|
    ensures forall i :: 0 <= i < |r| ==> !('a' <= r[i] <= 'z')
    ensures forall i :: 0 <= i < |s| && !('a' <= s[i] <= 'z') ==> r[i] == s[i]
    ensures forall i :: 0 <= i < |s| && 'a' <= s[i] <= 'z' ==> r[i] as int == s[i] as int - 'a' as int + 'A' as int
  {
    seq(|s|, i requires 0 <= i < |s| => UpperChar(s[i]))
  }

  /** Upper-casing works character by character. */
  lemma ToUpperAppend(a: string, b: string)
    ensures ToUpper(a + b) == ToUpper(a) + ToUpper(b)
  {
    var l, r := ToUpper(a + b), ToUpper(a) + ToUpper(b);
    assert forall i :: 0 <= i < |a| ==> l[i] == UpperChar(a[i]) == r[i];
    assert forall i :: |a| <= i < |a| + |b| ==> l[i] == UpperChar(b[i - |a|]) == r[i];
  }

  // ----- numbers and their text -----

  function DigitChar(d: nat): char
    requires d < 10
  {
    ('0' as int + d) as char
  }

  function DigitValue(c: char): nat
    requires IsHexDigit(c)
  {
    if IsDigit(c) then c as int - '0' as int
    else if 'a' <= c <= 'f' then c as int - 'a' as int + 10
    else c as int - 'A' as int + 10
  }

  /** The decimal text of a natural number, as `${n}` writes it. */
  function NatStr(n: nat): (s: string)
    ensures |s| >= 1 && AllDigits(s)
    ensures s[0] == '0' ==> n == 0 && |s| == 1
    decreases n
  {
    if n < 10 then [DigitChar(n)] else NatStr(n / 10) + [DigitChar(n % 10)]
  }

  /** The text of an integer, as `${i}` writes it (no exponent form). */
  function IntStr(i: int): string {
    if i < 0 then "-" + NatStr(-i) else NatStr(i)
  }

  /** The text of a parsed number: `NaN` when `parseInt` found no digits. */
  function NumberStr(n: Option<int>): string {
    match n
    case None => "NaN"
    case Some(i) => IntStr(i)
  }

  predicate IsRadixDigit(c: char, hex: bool) { if hex then IsHexDigit(c) else IsDigit(c) }

  /** The longest prefix of `s` made of digits of the radix. */
  function RadixPrefix(s: string, hex: bool): (d: string)
    ensures d <= s
    ensures forall i :: 0 <= i < |d| ==> IsRadixDigit(d[i], hex)
    ensures |d| < |s| ==> !IsRadixDigit(s[|d|], hex)
    decreases |s|
  {
    if s == [] || !IsRadixDigit(s[0], hex) then [] else [s[0]] + RadixPrefix(s[1..], hex)
  }

  function RadixValue(d: string, hex: bool): nat
    requires forall i :: 0 <= i < |d| ==> IsRadixDigit(d[i], hex)
    decreases |d|
  {
    if d == [] then 0
    else
      var last := d[|d| - 1];
      assert IsRadixDigit(last, hex);
      RadixValue(d[..|d| - 1], hex) * (if hex then 16 else 10) + DigitValue(last)
  }

  function TrimStart(s: string): (r: string)
    ensures |r| <= |s| && r == s[|s| - |r|..]
    ensures r == [] || !IsWhitespace(r[0])
    ensures forall i :: 0 <= i < |s| - |r| ==> IsWhitespace(s[i])
    decreases |s|
  {
    if s != [] && IsWhitespace(s[0]) then TrimStart(s[1..]) else s
  }

  /**
   * The digits after the sign: a `0x`/`0X` prefix switches to radix 16, and
   * the longest run of digits of the radix is the value; no digit at all
   * gives `NaN` (None).
   */
  function ParseUnsigned(u: string): Option<nat> {
    var hex := |u| >= 2 && u[0] == '0' && (u[1] == 'x' || u[1] == 'X');
    var z := RadixPrefix(if hex then u[2..] else u, hex);
    if z == [] then None else Some(RadixValue(z, hex))
  }

  /**
   * `parseInt(s)` without a radix: leading white space is skipped, one sign
   * is read, and the digits after it are read as by `ParseUnsigned`.
   */
  function ParseInt(s: string): Option<int> {
    var t := TrimStart(s);
    var negative := StartsWith(t, '-');
    var digits := ParseUnsigned(if negative || StartsWith(t, '+') then t[1..] else t);
    if digits.None? then None
    else
      var v: int := digits.value;
      Some(if negative then -v else v)
  }


  /** Reading back the decimal text of `n` gives `n`. */
  lemma {:induction false} NatStrValue(n: nat)
    ensures RadixValue(NatStr(n), false) == n
    decreases n
  {
    if n >= 10 {
      var s := NatStr(n);
      assert s[..|s| - 1] == NatStr(n / 10);
      NatStrValue(n / 10);
    }
  }

  /** Distinct numbers have distinct decimal texts. */
  lemma NatStrInjective(a: nat, b: nat)
    ensures NatStr(a) == NatStr(b) ==> a == b
  {
    NatStrValue(a);
    NatStrValue(b);
  }

  lemma {:induction false} RadixPrefixOfDigits(d: string, rest: string, hex: bool)
    requires forall i :: 0 <= i < |d| ==> IsRadixDigit(d[i], hex)
    requires rest == [] || !IsRadixDigit(rest[0], hex)
    ensures RadixPrefix(d + rest, hex) == d
    decreases |d|
  {
    if d != [] {
      assert (d + rest)[1..] == d[1..] + rest;
      RadixPrefixOfDigits(d[1..], rest, hex);
    }
  }

  /** Decimal text that does not start with `0x` is read as the value of its leading run of digits. */
  lemma ParseUnsignedDecimal(s: string)
    requires s != [] && IsDigit(s[0])
    requires !(|s| >= 2 && s[0] == '0' && (s[1] == 'x' || s[1] == 'X'))
    ensures ParseUnsigned(s) == Some(RadixValue(RadixPrefix(s, false), false))
  {
  }

  /** Text starting with a digit is read without a sign. */
  lemma ParseIntUnsigned(s: string)
    requires s != [] && IsDigit(s[0])
    ensures ParseInt(s) == ParseUnsigned(s)
  {
    assert TrimStart(s) == s;
  }

  /**
   * The unsigned reading of the decimal text of `n` is `n` when what follows
   * it is neither a digit nor the `x` of a hexadecimal prefix.
   */
  lemma ParseUnsignedNatStr(n: nat, rest: string)
    requires rest == [] || (!IsDigit(rest[0]) && rest[0] != 'x' && rest[0] != 'X')
    ensures ParseUnsigned(NatStr(n) + rest) == Some(n)
  {
    var d := NatStr(n);
    var s := d + rest;
    assert s[0] == d[0];
    assert !(|s| >= 2 && s[0] == '0' && (s[1] == 'x' || s[1] == 'X')) by {
      if |s| >= 2 && s[0] == '0' {
        assert |d| == 1;
        assert s[1] == rest[0];
      }
    }
    ParseUnsignedDecimal(s);
    RadixPrefixOfDigits(d, rest, false);
    NatStrValue(n);
  }

  /**
   * `parseInt` reads back the decimal text of `n` when what follows it is
   * neither a digit nor the `x` of a hexadecimal prefix.
   */
  lemma ParseIntNatStr(n: nat, rest: string)
    requires rest == [] || (!IsDigit(rest[0]) && rest[0] != 'x' && rest[0] != 'X')
    ensures ParseInt(NatStr(n) + rest) == Some(n)
  {
    assert (NatStr(n) + rest)[0] == NatStr(n)[0];
    ParseIntUnsigned(NatStr(n) + rest);
    ParseUnsignedNatStr(n, rest);
  }

  /** `parseInt` reads back the decimal text of a natural number. */
  lemma ParseIntOfNatStr(n: nat)
    ensures ParseInt(NatStr(n)) == Some(n)
  {
    assert NatStr(n) == NatStr(n) + [];
    ParseIntNatStr(n, []);
  }

  /** `parseInt` reads back the text `${i}` of every integer. */
  lemma ParseIntIntStr(i: int)
    ensures ParseInt(IntStr(i)) == Some(i)
  {
    if i >= 0 {
      assert IntStr(i) == NatStr(i) + [];
      ParseIntNatStr(i, []);
    } else {
      var d := NatStr(-i);
      var s := "-" + d;
      assert IntStr(i) == s;
      assert TrimStart(s) == s;
      assert StartsWith(s, '-') && s[1..] == d + [];
      ParseUnsignedNatStr(-i, []);
    }
  }

  /** `parseInt` reads back the text of every parsed number, `NaN` included. */
  lemma ParseIntNumberStr(n: Option<int>)
    ensures ParseInt(NumberStr(n)) == n
  {
    match n
    case None =>
      assert TrimStart("NaN") == "NaN";
    case Some(i) =>
      ParseIntIntStr(i);
  }

  /** Two parsed numbers have the same text exactly when they are equal. */
  lemma NumberStrInjective(a: Option<int>, b: Option<int>)
    ensures NumberStr(a) == NumberStr(b) <==> a == b
  {
    ParseIntNumberStr(a);
    ParseIntNumberStr(b);
  }

  // ----- split and join -----

  /** `s.split(sep)` for a one-character separator, or a character class of separators. */
  function SplitOn(s: string, seps: set<char>): (r: seq<string>)
    ensures |r| >= 1
    ensures forall k, i :: 0 <= k < |r| && 0 <= i < |r[k]| ==> r[k][i] !in seps && r[k][i] in s
    decreases |s|
  {
    if s == [] then [""]
    else
      var rest := SplitOn(s[1..], seps);
      if s[0] in seps then [""] + rest
      else [[s[0]] + rest[0]] + rest[1..]
  }

  /** How many characters of `s` are separators. */
  function CountIn(s: string, seps: set<char>): nat
    decreases |s|
  {
    if s == [] then 0 else (if s[0] in seps then 1 else 0) + CountIn(s[1..], seps)
  }

  /** Splitting yields one piece more than there are separators. */
  lemma {:induction false} SplitOnLength(s: string, seps: set<char>)
    ensures |SplitOn(s, seps)| == CountIn(s, seps) + 1
    decreases |s|
  {
    if s != [] {
      SplitOnLength(s[1..], seps);
    }
  }

  lemma {:induction false} CountInPositive(s: string, seps: set<char>)
    ensures CountIn(s, seps) > 0 <==> ContainsAny(s, seps)
    decreases |s|
  {
    if s != [] {
      CountInPositive(s[1..], seps);
      if ContainsAny(s[1..], seps) {
        var i :| 0 <= i < |s[1..]| && s[1..][i] in seps;
        assert s[i + 1] in seps;
      }
      if ContainsAny(s, seps) && s[0] !in seps {
        var i :| 0 <= i < |s| && s[i] in seps;
        assert s[1..][i - 1] in seps;
      }
    }
  }

  /** A string without separators is one piece. */
  lemma {:induction false} SplitOnNone(s: string, seps: set<char>)
    requires forall i :: 0 <= i < |s| ==> s[i] !in seps
    ensures SplitOn(s, seps) == [s]
    decreases |s|
  {
    if s != [] {
      SplitOnNone(s[1..], seps);
      assert [s[0]] + s[1..] == s;
    }
  }

  /** The first separator ends the first piece. */
  lemma {:induction false} SplitOnFirst(a: string, c: char, b: string, seps: set<char>)
    requires c in seps
    requires forall i :: 0 <= i < |a| ==> a[i] !in seps
    ensures SplitOn(a + [c] + b, seps) == [a] + SplitOn(b, seps)
    decreases |a|
  {
    if a != [] {
      assert (a + [c] + b)[1..] == a[1..] + [c] + b;
      SplitOnFirst(a[1..], c, b, seps);
      assert [a[0]] + a[1..] == a;
    } else {
      assert (a + [c] + b)[1..] == b;
    }
  }

  /** `pieces.join(sep)`. */
  function Join(pieces: seq<string>, sep: char): string
    decreases |pieces|
  {
    if |pieces| == 0 then ""
    else if |pieces| == 1 then pieces[0]
    else pieces[0] + [sep] + Join(pieces[1..], sep)
  }

  /** Splitting a join of separator-free pieces gives the pieces back. */
  lemma {:induction false} SplitJoin(pieces: seq<string>, sep: char)
    requires |pieces| >= 1
    requires forall k :: 0 <= k < |pieces| ==> sep !in pieces[k]
    ensures SplitOn(Join(pieces, sep), {sep}) == pieces
    decreases |pieces|
  {
    if |pieces| == 1 {
      SplitOnNone(pieces[0], {sep});
    } else {
      SplitOnFirst(pieces[0], sep, Join(pieces[1..], sep), {sep});
      SplitJoin(pieces[1..], sep);
    }
  }

  /** Joining the pieces of a split with the same separator gives the string back. */
  lemma {:induction false} JoinSplit(s: string, sep: char)
    ensures Join(SplitOn(s, {sep}), sep) == s
    decreases |s|
  {
    if s != [] {
      JoinSplit(s[1..], sep);
      var rest := SplitOn(s[1..], {sep});
      if s[0] != sep {
        if |rest| > 1 {
          assert Join(rest, sep) == rest[0] + [sep] + Join(rest[1..], sep);
          assert ([[s[0]] + rest[0]] + rest[1..])[1..] == rest[1..];
        }
      }
    }
  }
}
