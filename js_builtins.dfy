/**
 * The JavaScript built-ins that the pricing, matching and validation code leans on:
 * `Math.round`, `String.prototype.includes` / `indexOf` / `replace` (string pattern),
 * the last field of `split`, `Number(...)` on digit strings, `parseInt` and the
 * port regular expression `^[1-9][0-9]*$`.
 */
module JsBuiltins {

  datatype Option<+T> = None | Some(value: T)

  /** `Math.round`: the nearest integer, a half rounded toward +infinity. */
  function MathRound(x: real): (n: int)
    ensures x - 0.5 < n as real <= x + 0.5
  {
    (x + 0.5).Floor
  }

  /** Any integer within (x - 1/2, x + 1/2] is the one `Math.round` picks. */
  lemma MathRoundUnique(x: real, n: int)
    requires x - 0.5 < n as real <= x + 0.5
    ensures MathRound(x) == n
  {
    var m := MathRound(x);
    assert m as real - n as real < 1.0 && n as real - m as real < 1.0;
  }

  // ---------------------------------------------------------------------------
  // Substrings

  /** `pat` occurs in `s` starting at index `i`. */
  predicate OccursAt(s: string, pat: string, i: int)
  {
    0 <= i && i + |pat| <= |s| && s[i..i + |pat|] == pat
  }

  function IndexOfFrom(s: string, pat: string, from: nat): (r: Option<nat>)
    decreases |s| - from
    ensures r.Some? ==> from <= r.value && OccursAt(s, pat, r.value)
    ensures r.Some? ==> forall i :: from <= i < r.value ==> !OccursAt(s, pat, i)
    ensures r.None? ==> forall i :: from <= i ==> !OccursAt(s, pat, i)
  {
    if from + |pat| > |s| then None
    else if s[from..from + |pat|] == pat then Some(from)
    else IndexOfFrom(s, pat, from + 1)
  }

  /** `s.indexOf(pat)`: the first index where `pat` occurs, if any. */
  function IndexOf(s: string, pat: string): (r: Option<nat>)
    ensures r.Some? ==> OccursAt(s, pat, r.value)
    ensures r.Some? ==> forall i :: 0 <= i < r.value ==> !OccursAt(s, pat, i)
    ensures r.None? ==> forall i :: !OccursAt(s, pat, i)
  {
    IndexOfFrom(s, pat, 0)
  }

  /** `s.includes(pat)`. */
  predicate Includes(s: string, pat: string)
  {
    IndexOf(s, pat).Some?
  }

  /**
   * `s.replace(pat, rep)` with a string pattern: only the first occurrence is replaced.
   * JavaScript also expands `$&`, `$1`, `$$` ... in `rep`; every replacement the code
   * passes ("", "H100", " SXM5 ", "GB") is free of `$`, so `rep` is inserted as is.
   */
  function ReplaceFirst(s: string, pat: string, rep: string): (r: string)
    ensures IndexOf(s, pat).None? ==> r == s
  {
    match IndexOf(s, pat)
    case None => s
    case Some(i) => s[..i] + rep + s[i + |pat|..]
  }

  /** When `pat` first occurs at `i`, `replace` splices `rep` in at `i`. */
  lemma ReplaceFirstAt(s: string, pat: string, rep: string, i: nat)
    requires OccursAt(s, pat, i)
    requires forall j :: 0 <= j < i ==> !OccursAt(s, pat, j)
    ensures ReplaceFirst(s, pat, rep) == s[..i] + rep + s[i + |pat|..]
  {
    assert IndexOf(s, pat) == Some(i);
  }

  /** `pat` first occurs at `i` when it occurs there and no earlier character starts it. */
  lemma ReplaceFirstAtFirstStart(s: string, pat: string, rep: string, i: nat)
    requires |pat| > 0 && OccursAt(s, pat, i)
    requires forall j :: 0 <= j < i ==> s[j] != pat[0]
    ensures ReplaceFirst(s, pat, rep) == s[..i] + rep + s[i + |pat|..]
  {
    forall j | 0 <= j < i ensures !OccursAt(s, pat, j) {
      if j + |pat| <= |s| {
        assert s[j..j + |pat|][0] == s[j];
      }
    }
    ReplaceFirstAt(s, pat, rep, i);
  }

  /** When no character of `prefix` can start `pat`, `replace` acts on the `pat` right after it. */
  lemma ReplaceFirstAfter(prefix: string, pat: string, rest: string, rep: string)
    requires |pat| > 0
    requires forall j :: 0 <= j < |prefix| ==> prefix[j] != pat[0]
    ensures ReplaceFirst(prefix + (pat + rest), pat, rep) == prefix + (rep + rest)
  {
    var s := prefix + (pat + rest);
    var i := |prefix|;
    assert s[i..i + |pat|] == pat;
    forall j | 0 <= j < i ensures s[j] != pat[0] {
      assert s[j] == prefix[j];
    }
    ReplaceFirstAtFirstStart(s, pat, rep, i);
    assert s[..i] == prefix && s[i + |pat|..] == rest;
  }

  /** The last element of `s.split([sep])`: the longest suffix of `s` free of `sep`. */
  function LastSegment(s: string, sep: char): (r: string)
    ensures sep !in r
    ensures |r| <= |s| && r == s[|s| - |r|..]
    ensures |r| < |s| ==> s[|s| - |r| - 1] == sep
  {
    if |s| == 0 || s[|s| - 1] == sep then []
    else
      var front := s[..|s| - 1];
      var r' := LastSegment(front, sep);
      assert r' == s[|s| - 1 - |r'|..|s| - 1];
      r' + [s[|s| - 1]]
  }

  /** The last segment after a separator is the text that follows the last separator. */
  lemma LastSegmentAfterSeparator(prefix: string, sep: char, tail: string)
    requires sep !in tail
    ensures LastSegment(prefix + [sep] + tail, sep) == tail
  {
    var s := prefix + [sep] + tail;
    var r := LastSegment(s, sep);
    assert s[|s| - |tail| - 1] == sep;
    assert |r| == |tail|;
    assert r == s[|s| - |tail|..] == tail;
  }

  // ---------------------------------------------------------------------------
  // Digits and numbers

  /** The value of character `ch` as a digit in base `radix` (10 or 16), if it is one. */
  function DigitOf(ch: char, radix: nat): (d: Option<nat>)
    ensures d.Some? ==> d.value < radix
  {
    var v :=
      if '0' <= ch <= '9' then (ch as int) - ('0' as int)
      else if 'a' <= ch <= 'z' then (ch as int) - ('a' as int) + 10
      else if 'A' <= ch <= 'Z' then (ch as int) - ('A' as int) + 10
      else radix;
    if 0 <= v < radix then Some(v) else None
  }

  predicate IsDigits(s: string, radix: nat)
  {
    forall i :: 0 <= i < |s| ==> DigitOf(s[i], radix).Some?
  }

  /** The value of a digit string in base `radix`, most significant digit first. */
  function ValueIn(s: string, radix: nat): (v: nat)
    requires IsDigits(s, radix)
  {
    if |s| == 0 then 0
    else ValueIn(s[..|s| - 1], radix) * radix + DigitOf(s[|s| - 1], radix).value
  }

  /** `Number(s)` for the strings the model ids produce: a run of decimal digits
      (the empty string reads as 0); any other string is read as NaN (None). */
  function NumberOfDigits(s: string): (n: Option<int>)
    ensures n.Some? <==> IsDigits(s, 10)
    ensures n.Some? ==> n.value >= 0 && n.value == ValueIn(s, 10)
  {
    if IsDigits(s, 10) then Some(ValueIn(s, 10)) else None
  }

  /** The characters JavaScript's `parseInt` skips at the front (WhiteSpace and LineTerminator). */
  predicate IsJsWhitespace(ch: char)
  {
    var c := ch as int;
    (9 <= c <= 13) || c == 0x20 || c == 0xA0 || c == 0x1680 || (0x2000 <= c <= 0x200A)
    || c == 0x2028 || c == 0x2029 || c == 0x202F || c == 0x205F || c == 0x3000 || c == 0xFEFF
  }

  /** What `parseInt` has consumed so far. */
  datatype ScanState =
    | Leading                                                     // skipping white space
    | AfterSign(negative: bool)                                   // past the optional sign
    | InDigits(negative: bool, radix: nat, value: int, seen: bool) // reading digits

  function StateRank(st: ScanState): nat
  {
    match st
    case Leading => 2
    case AfterSign(_) => 1
    case InDigits(_, _, _, _) => 0
  }

  /**
   * `parseInt` with no radix argument, one character at a time: skip white space, read
   * an optional sign, switch to base 16 after `0x`/`0X`, then read digits for as long as
   * there are any. Reading no digit at all gives NaN (None).
   */
  function Scan(s: string, st: ScanState): Option<int>
    decreases |s|, StateRank(st)
  {
    match st
    case Leading =>
      if |s| > 0 && IsJsWhitespace(s[0]) then Scan(s[1..], Leading)
      else if |s| > 0 && (s[0] == '-' || s[0] == '+') then Scan(s[1..], AfterSign(s[0] == '-'))
      else Scan(s, AfterSign(false))
    case AfterSign(negative) =>
      if |s| >= 2 && s[0] == '0' && (s[1] == 'x' || s[1] == 'X') then Scan(s[2..], InDigits(negative, 16, 0, false))
      else Scan(s, InDigits(negative, 10, 0, false))
    case InDigits(negative, radix, value, seen) =>
      if |s| > 0 && DigitOf(s[0], radix).Some? then
        Scan(s[1..], InDigits(negative, radix, value * radix + DigitOf(s[0], radix).value, true))
      else if !seen then None
      else Some(if negative then -value else value)
  }

  function ParseInt(s: string): Option<int>
  {
    Scan(s, Leading)
  }

  /** Leading white space does not change what `parseInt` reads. */
  lemma ParseIntSkipsWhitespace(c: char, s: string)
    requires IsJsWhitespace(c)
    ensures ParseInt([c] + s) == ParseInt(s)
  {
    assert ([c] + s)[1..] == s;
  }

  /** Reading the digits `q` after the digits `p` have been read, up to a non-digit, yields the value of `p + q`. */
  lemma {:induction false} ScanDigits(p: string, q: string, rest: string, negative: bool, radix: nat)
    requires IsDigits(p, radix) && IsDigits(q, radix)
    requires |p| + |q| > 0
    requires rest == [] || DigitOf(rest[0], radix).None?
    ensures IsDigits(p + q, radix)
    ensures var v: int := ValueIn(p + q, radix);
      Scan(q + rest, InDigits(negative, radix, ValueIn(p, radix), |p| > 0)) == Some(if negative then -v else v)
    decreases |q|
  {
    assert IsDigits(p + q, radix) by {
      forall i | 0 <= i < |p + q| ensures DigitOf((p + q)[i], radix).Some? {
        if i < |p| { assert (p + q)[i] == p[i]; } else { assert (p + q)[i] == q[i - |p|]; }
      }
    }
    if |q| == 0 {
      assert p + q == p;
      assert q + rest == rest;
    } else {
      var p' := p + [q[0]];
      assert IsDigits(p', radix) by {
        forall i | 0 <= i < |p'| ensures DigitOf(p'[i], radix).Some? {
          if i < |p| { assert p'[i] == p[i]; }
        }
      }
      assert p'[..|p'| - 1] == p;
      assert IsDigits(q[1..], radix) by {
        forall i | 0 <= i < |q[1..]| ensures DigitOf(q[1..][i], radix).Some? {
          assert q[1..][i] == q[i + 1];
        }
      }
      assert (q + rest)[0] == q[0];
      assert (q + rest)[1..] == q[1..] + rest;
      assert p' + q[1..] == p + q;
      ScanDigits(p', q[1..], rest, negative, radix);
    }
  }

  /** The port pattern `^[1-9][0-9]*$`. */
  predicate IsPortSyntax(s: string)
  {
    |s| >= 1 && '1' <= s[0] <= '9' && forall i :: 1 <= i < |s| ==> '0' <= s[i] <= '9'
  }

  /** A string matching the port pattern is a positive decimal number. */
  lemma {:induction false} PortSyntaxValue(s: string)
    requires IsPortSyntax(s)
    ensures IsDigits(s, 10) && ValueIn(s, 10) >= 1
  {
    assert IsDigits(s, 10) by {
      forall i | 0 <= i < |s| ensures DigitOf(s[i], 10).Some? {
        assert '0' <= s[i] <= '9';
      }
    }
    if |s| > 1 {
      var front := s[..|s| - 1];
      assert front[0] == s[0];
      assert forall i :: 1 <= i < |front| ==> front[i] == s[i];
      PortSyntaxValue(front);
    }
  }

  /**
   * A number written in the port pattern and followed by anything that does not start
   * with a digit is read as that number: `parseInt` stops at the first non-digit.
   */
  lemma ParseIntReadsLeadingNumber(s: string, rest: string)
    requires IsPortSyntax(s)
    requires rest == [] || DigitOf(rest[0], 10).None?
    ensures IsDigits(s, 10)
    ensures ParseInt(s + rest) == Some(ValueIn(s, 10)) && ValueIn(s, 10) >= 1
  {
    PortSyntaxValue(s);
    var t := s + rest;
    assert t[0] == s[0];
    assert !IsJsWhitespace(t[0]) && t[0] != '-' && t[0] != '+' && t[0] != '0';
    assert ParseInt(t) == Scan(t, AfterSign(false));
    assert Scan(t, AfterSign(false)) == Scan(t, InDigits(false, 10, 0, false));
    ScanDigits([], s, rest, false, 10);
    assert [] + s == s;
  }

  /** On a string matching the port pattern, `parseInt` reads its decimal value. */
  lemma ParseIntOfPortSyntax(s: string)
    requires IsPortSyntax(s)
    ensures IsDigits(s, 10)
    ensures ParseInt(s) == Some(ValueIn(s, 10)) && ValueIn(s, 10) >= 1
  {
    ParseIntReadsLeadingNumber(s, []);
    assert s + [] == s;
  }
}
