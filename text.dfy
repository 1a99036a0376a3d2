/**
 * Character-level helpers for the scraper's cell normalisation and output
 * formatting: the Python 2 byte-string operations `encode('ascii', 'ignore')`,
 * `strip()`, `replace(',', '')`, `split()[0]`, `'%-Ns'` and `'%i'`.
 */
module Text {
  import opened Wrappers

  /** Python 2 `str.isspace` on one byte: space, tab, LF, VT, FF, CR. */
  predicate IsSpace(c: char) {
    c == ' ' || 9 <= c as int <= 13
  }

  predicate IsAscii(c: char) {
    (c as int) < 128
  }

  predicate AllSpace(s: string) {
    forall k :: 0 <= k < |s| ==> IsSpace(s[k])
  }

  predicate NoSpace(s: string) {
    forall k :: 0 <= k < |s| ==> !IsSpace(s[k])
  }

  predicate AllAscii(s: string) {
    forall k :: 0 <= k < |s| ==> IsAscii(s[k])
  }

  /** No whitespace at either end, as `strip()` leaves a string. */
  predicate IsStripped(s: string) {
    s == [] || (!IsSpace(s[0]) && !IsSpace(s[|s| - 1]))
  }

  // ---------------------------------------------------------------------
  // encode('ascii', 'ignore')
  // ---------------------------------------------------------------------

  /** Drops every character that has no ASCII encoding, keeping the order of the rest. */
  function AsciiOnly(s: string): (r: string)
    ensures AllAscii(r)
    ensures |r| <= |s|
    ensures forall c :: c in r <==> c in s && IsAscii(c)
    ensures AllAscii(s) ==> r == s
  {
    if s == [] then []
    else if IsAscii(s[0]) then [s[0]] + AsciiOnly(s[1..])
    else AsciiOnly(s[1..])
  }

  /** Encoding works character by character: the kept characters stay in order and keep their repetitions. */
  lemma {:induction false} AsciiOnlyAppend(a: string, b: string)
    ensures AsciiOnly(a + b) == AsciiOnly(a) + AsciiOnly(b)
    decreases |a|
  {
    if a != [] {
      assert (a + b)[0] == a[0] && (a + b)[1..] == a[1..] + b;
      AsciiOnlyAppend(a[1..], b);
      if IsAscii(a[0]) {
        assert AsciiOnly(a + b) == [a[0]] + (AsciiOnly(a[1..]) + AsciiOnly(b));
      }
    } else {
      assert a + b == b;
    }
  }

  // ---------------------------------------------------------------------
  // strip()
  // ---------------------------------------------------------------------

  /** Number of whitespace characters at the start of `s`. */
  function LeadingSpaces(s: string): (n: nat)
    ensures n <= |s|
    ensures AllSpace(s[..n])
    ensures n < |s| ==> !IsSpace(s[n])
  {
    if s == [] || !IsSpace(s[0]) then 0
    else
      var n := 1 + LeadingSpaces(s[1..]);
      assert s[..n] == [s[0]] + s[1..][..n - 1];
      n
  }

  /** Number of whitespace characters at the end of `s`. */
  function TrailingSpaces(s: string): (n: nat)
    ensures n <= |s|
    ensures AllSpace(s[|s| - n..])
    ensures n < |s| ==> !IsSpace(s[|s| - 1 - n])
  {
    if s == [] || !IsSpace(s[|s| - 1]) then 0
    else
      var t := s[..|s| - 1];
      var n := 1 + TrailingSpaces(t);
      assert s[|s| - n..] == t[|t| - (n - 1)..] + [s[|s| - 1]];
      n
  }

  /**
   * `strip()`: the infix of `s` left after removing the whitespace at both
   * ends. The result is the unique infix with whitespace-only margins and no
   * whitespace at its own ends.
   */
  function Strip(s: string): (r: string)
    ensures |r| <= |s|
    ensures IsStripped(r)
    ensures exists i :: 0 <= i <= |s| - |r| && s[i..i + |r|] == r && AllSpace(s[..i]) && AllSpace(s[i + |r|..])
    ensures AllAscii(s) ==> AllAscii(r)
    ensures LeadingSpaces(s) == |s| ==> r == []
    ensures LeadingSpaces(s) < |s| ==> r == s[LeadingSpaces(s)..|s| - TrailingSpaces(s)]
  {
    var i := LeadingSpaces(s);
    if i == |s| then
      assert s[0..0] == [] && s[0..] == s;
      []
    else
      var t := TrailingSpaces(s);
      StripInfix(s, i, t);
      s[i..|s| - t]
  }

  /** What `Strip` keeps when `s` is not all whitespace: a stripped infix between whitespace margins. */
  lemma StripInfix(s: string, i: nat, t: nat)
    requires i == LeadingSpaces(s) && i < |s| && t == TrailingSpaces(s)
    ensures i < |s| - t
    ensures IsStripped(s[i..|s| - t])
    ensures s[i..i + |s[i..|s| - t]|] == s[i..|s| - t] && AllSpace(s[..i]) && AllSpace(s[|s| - t..])
    ensures AllAscii(s) ==> AllAscii(s[i..|s| - t])
  {
    assert t < |s| && !IsSpace(s[|s| - 1 - t]);
    assert !IsSpace(s[i]);
    assert forall k :: |s| - t <= k < |s| ==> IsSpace(s[k]) by {
      forall k | |s| - t <= k < |s|
        ensures IsSpace(s[k])
      {
        assert s[k] == s[|s| - t..][k - (|s| - t)];
      }
    }
    var r := s[i..|s| - t];
    assert r[0] == s[i] && r[|r| - 1] == s[|s| - 1 - t];
    assert i + |r| == |s| - t;
    if AllAscii(s) {
      assert forall k :: 0 <= k < |r| ==> r[k] == s[i + k];
    }
  }

  /** A stripped string is a fixed point of `Strip`, so stripping twice changes nothing. */
  lemma {:induction false} StripIdempotent(s: string)
    ensures Strip(Strip(s)) == Strip(s)
  {
    StrippedIsFixedPoint(Strip(s));
  }

  /** Whitespace around a stripped string is exactly what `strip()` removes. */
  lemma StripPadded(a: string, x: string, b: string)
    requires AllSpace(a) && AllSpace(b) && IsStripped(x)
    ensures Strip(a + x + b) == x
  {
    if x == [] {
      assert a + x + b == a + b;
      StripAllSpace(a, b);
    } else {
      StripAroundWord(a, x, b);
    }
  }

  lemma StripAllSpace(a: string, b: string)
    requires AllSpace(a) && AllSpace(b)
    ensures Strip(a + b) == []
  {
    LeadingSpacesAfterSpace(a, b);
    LeadingSpacesAfterSpace(b, []);
    assert b + [] == b;
  }

  lemma StripAroundWord(a: string, x: string, b: string)
    requires AllSpace(a) && AllSpace(b) && IsStripped(x) && x != []
    ensures Strip(a + x + b) == x
  {
    var s := a + x + b;
    LeadingSpacesAfterSpace(a, x + b);
    assert a + (x + b) == s;
    assert LeadingSpaces(x + b) == 0 by { assert (x + b)[0] == x[0]; }
    TrailingSpacesBeforeSpace(a + x, b);
    assert TrailingSpaces(a + x) == 0 by { assert (a + x)[|a + x| - 1] == x[|x| - 1]; }
    assert s[|a|..|s| - |b|] == x;
  }

  lemma {:induction false} LeadingSpacesAfterSpace(a: string, t: string)
    requires AllSpace(a)
    ensures LeadingSpaces(a + t) == |a| + LeadingSpaces(t)
    decreases |a|
  {
    if a != [] {
      assert (a + t)[0] == a[0] && (a + t)[1..] == a[1..] + t;
      LeadingSpacesAfterSpace(a[1..], t);
    } else {
      assert a + t == t;
    }
  }

  lemma {:induction false} TrailingSpacesBeforeSpace(t: string, b: string)
    requires AllSpace(b)
    ensures TrailingSpaces(t + b) == TrailingSpaces(t) + |b|
    decreases |b|
  {
    if b != [] {
      var n := |b| - 1;
      var s := t + b;
      assert s[|s| - 1] == b[n] && s[..|s| - 1] == t + b[..n];
      assert AllSpace(b[..n]);
      TrailingSpacesBeforeSpace(t, b[..n]);
      assert TrailingSpaces(s) == 1 + TrailingSpaces(s[..|s| - 1]);
    } else {
      assert t + b == t;
    }
  }

  lemma {:induction false} StrippedIsFixedPoint(s: string)
    requires IsStripped(s)
    ensures Strip(s) == s
  {
    if s != [] {
      assert LeadingSpaces(s) == 0;
      assert TrailingSpaces(s) == 0;
      assert s[0..|s|] == s;
    }
  }

  // ---------------------------------------------------------------------
  // replace(',', '')
  // ---------------------------------------------------------------------

  /** Deletes every comma (the thousands separator), keeping every other character in order. */
  function RemoveCommas(s: string): (r: string)
    ensures ',' !in r
    ensures |r| <= |s|
    ensures forall c :: c in r <==> c in s && c != ','
    ensures ',' !in s ==> r == s
    ensures AllAscii(s) ==> AllAscii(r)
  {
    if s == [] then []
    else if s[0] == ',' then RemoveCommas(s[1..])
    else [s[0]] + RemoveCommas(s[1..])
  }

  /** Commas are removed piece by piece: the other characters stay in order and keep their repetitions. */
  lemma {:induction false} RemoveCommasAppend(a: string, b: string)
    ensures RemoveCommas(a + b) == RemoveCommas(a) + RemoveCommas(b)
    decreases |a|
  {
    if a != [] {
      assert (a + b)[0] == a[0] && (a + b)[1..] == a[1..] + b;
      RemoveCommasAppend(a[1..], b);
      if a[0] != ',' {
        assert RemoveCommas(a + b) == [a[0]] + (RemoveCommas(a[1..]) + RemoveCommas(b));
      }
    } else {
      assert a + b == b;
    }
  }

  // ---------------------------------------------------------------------
  // split()[0]
  // ---------------------------------------------------------------------

  /** Length of the run of non-whitespace characters at the start of `s`. */
  function WordLength(s: string): (n: nat)
    ensures n <= |s|
    ensures NoSpace(s[..n])
    ensures n < |s| ==> IsSpace(s[n])
  {
    if s == [] || IsSpace(s[0]) then 0
    else
      var n := 1 + WordLength(s[1..]);
      assert s[..n] == [s[0]] + s[1..][..n - 1];
      n
  }

  /**
   * `split()[0]`: the first maximal run of non-whitespace characters, or
   * None where `split()` returns an empty list and `[0]` raises IndexError.
   */
  function FirstToken(s: string): (r: Option<string>)
    ensures r.None? <==> AllSpace(s)
    ensures r.Some? ==> r.value != [] && NoSpace(r.value)
    ensures r.Some? ==> exists i :: 0 <= i <= |s| - |r.value| && AllSpace(s[..i]) && s[i..i + |r.value|] == r.value
                                    && (i + |r.value| == |s| || IsSpace(s[i + |r.value|]))
  {
    var i := LeadingSpaces(s);
    if i == |s| then
      assert s[..i] == s;
      None
    else
      var n := WordLength(s[i..]);
      assert n > 0;
      assert s[i..i + n] == s[i..][..n];
      assert i + n < |s| ==> s[i + n] == s[i..][n];
      Some(s[i..i + n])
  }

  /** On a stripped string the first token is its leading run of non-whitespace, if any. */
  lemma FirstTokenOfStripped(s: string)
    requires IsStripped(s)
    ensures FirstToken(s) == if s == [] then None else Some(s[..WordLength(s)])
    ensures s != [] ==> WordLength(s) > 0
  {
    if s != [] {
      assert LeadingSpaces(s) == 0;
      assert s[0..] == s;
    }
  }

  // ---------------------------------------------------------------------
  // '%-Ns' % s
  // ---------------------------------------------------------------------

  function Spaces(n: nat): (r: string)
    ensures |r| == n && AllSpace(r)
    ensures forall k :: 0 <= k < n ==> r[k] == ' '
  {
    if n == 0 then [] else [' '] + Spaces(n - 1)
  }

  function Max(a: nat, b: nat): nat {
    if a < b then b else a
  }

  /**
   * `'%-Ns' % s`: left-justifies `s` in a field of at least `width`
   * characters, padding with spaces on the right and never truncating.
   */
  function Pad(s: string, width: nat): (r: string)
    ensures |r| == Max(|s|, width)
    ensures r[..|s|] == s
    ensures forall k :: |s| <= k < |r| ==> r[k] == ' '
  {
    if |s| < width then s + Spaces(width - |s|) else s
  }

  // ---------------------------------------------------------------------
  // '%i' % n
  // ---------------------------------------------------------------------

  predicate IsDigit(c: char) {
    '0' <= c <= '9'
  }

  predicate AllDigits(s: string) {
    forall k :: 0 <= k < |s| ==> IsDigit(s[k])
  }

  function DigitChar(d: nat): (c: char)
    requires d < 10
    ensures IsDigit(c)
  {
    (48 + d) as char
  }

  function DigitValue(c: char): (d: nat)
    requires IsDigit(c)
    ensures d < 10
  {
    c as int - 48
  }

  /** Decimal digits of `n` without leading zeros. */
  function NatToString(n: nat): (s: string)
    ensures s != [] && AllDigits(s)
    ensures s[0] == '0' <==> n == 0
    ensures n == 0 ==> s == "0"
    decreases n
  {
    if n < 10 then [DigitChar(n)] else NatToString(n / 10) + [DigitChar(n % 10)]
  }

  /** `'%i' % n`: the decimal form of `n`, with a leading '-' when negative. */
  function IntToString(n: int): (s: string)
    ensures s != []
    ensures s[0] == '-' <==> n < 0
    ensures forall k :: 0 <= k < |s| ==> IsDigit(s[k]) || (k == 0 && s[k] == '-')
    ensures var digits := if n < 0 then s[1..] else s;
      digits != [] && (digits[0] == '0' ==> digits == "0")
  {
    if n < 0 then "-" + NatToString(-n) else NatToString(n)
  }

  /** Reads a string of decimal digits back as a number. */
  function ParseNat(s: string): nat
    requires AllDigits(s)
  {
    if s == [] then 0 else ParseNat(s[..|s| - 1]) * 10 + DigitValue(s[|s| - 1])
  }

  function ParseInt(s: string): int
    requires s != []
    requires forall k :: 0 <= k < |s| ==> IsDigit(s[k]) || (k == 0 && s[k] == '-')
  {
    if s[0] == '-' then 0 - ParseNat(s[1..]) else ParseNat(s)
  }

  lemma {:induction false} NatToStringRoundTrip(n: nat)
    ensures ParseNat(NatToString(n)) == n
    decreases n
  {
    var s := NatToString(n);
    if n >= 10 {
      NatToStringRoundTrip(n / 10);
      assert s[..|s| - 1] == NatToString(n / 10);
    }
  }

  /** Parsing the text `'%i'` writes gives back the number. */
  lemma {:induction false} IntToStringRoundTrip(n: int)
    ensures ParseInt(IntToString(n)) == n
  {
    if n < 0 {
      assert IntToString(n)[1..] == NatToString(-n);
      NatToStringRoundTrip(-n);
    } else {
      NatToStringRoundTrip(n);
    }
  }

  /** Distinct numbers are written as distinct text. */
  lemma IntToStringInjective(a: int, b: int)
    requires IntToString(a) == IntToString(b)
    ensures a == b
  {
    IntToStringRoundTrip(a);
    IntToStringRoundTrip(b);
  }

  /** `'%i'` writes only digits and a leading minus sign. */
  lemma IntToStringChars(n: int)
    ensures '_' !in IntToString(n) && '.' !in IntToString(n)
    ensures n >= 0 ==> '-' !in IntToString(n)
  {
    var s := IntToString(n);
    assert forall k :: 0 <= k < |s| ==> s[k] != '_' && s[k] != '.';
    if n >= 0 {
      assert forall k :: 0 <= k < |s| ==> s[k] != '-';
    }
  }

  // ---------------------------------------------------------------------
  // Splitting at a separator, used to prove that composed names are unambiguous
  // ---------------------------------------------------------------------

  /** Position of the first `c` in `s`. */
  function IndexOf(s: string, c: char): (n: nat)
    requires c in s
    ensures n < |s| && s[n] == c && c !in s[..n]
  {
    if s[0] == c then 0
    else
      var n := 1 + IndexOf(s[1..], c);
      assert s[..n] == [s[0]] + s[1..][..n - 1];
      n
  }

  lemma {:induction false} IndexOfSeparator(x: string, r: string, c: char)
    requires c !in x
    ensures IndexOf(x + [c] + r, c) == |x|
  {
    if x != [] {
      assert (x + [c] + r)[1..] == x[1..] + [c] + r;
      IndexOfSeparator(x[1..], r, c);
    }
  }

  /** When neither head contains `c`, the first `c` separates head from tail unambiguously. */
  lemma SplitAtSeparator(x: string, r: string, y: string, t: string, c: char)
    requires c !in x && c !in y
    requires x + [c] + r == y + [c] + t
    ensures x == y && r == t
  {
    var a := x + [c] + r;
    IndexOfSeparator(x, r, c);
    IndexOfSeparator(y, t, c);
    assert x == a[..|x|];
    assert y == a[..|y|];
    assert r == a[|x| + 1..];
    assert t == a[|y| + 1..];
  }

  lemma SplitRight(x: string, r: string, y: string, t: string, c: char)
    requires c !in x && c !in y
    requires x + ([c] + r) == y + ([c] + t)
    ensures x == y && r == t
  {
    assert x + ([c] + r) == x + [c] + r;
    assert y + ([c] + t) == y + [c] + t;
    SplitAtSeparator(x, r, y, t, c);
  }
}
