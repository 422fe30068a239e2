/**
 * The pieces of JavaScript's string behaviour the core relies on:
 * `String.prototype.split` on a one-character separator, `Array.prototype.join`,
 * `String.prototype.trim`, the decimal text of an integer (`String(n)`),
 * and `Number(s)` on a string of decimal digits with an optional sign.
 */
module JsText {
  import opened Wrappers

  // ---------------------------------------------------------------- split / join

  /** `s.split(c)`: the pieces between occurrences of `c`; always at least one piece. */
  function Split(s: string, c: char): (r: seq<string>)
    ensures |r| >= 1
    decreases |s|
  {
    if |s| == 0 then [""]
    else
      var rest := Split(s[1..], c);
      if s[0] == c then [""] + rest
      else [[s[0]] + rest[0]] + rest[1..]
  }

  /** `parts.join(sep)`. */
  function Join(parts: seq<string>, sep: string): string
  {
    if |parts| == 0 then ""
    else if |parts| == 1 then parts[0]
    else parts[0] + sep + Join(parts[1..], sep)
  }

  /** The number of times `c` occurs in `s`. */
  function Count(s: string, c: char): nat
  {
    if |s| == 0 then 0 else (if s[0] == c then 1 else 0) + Count(s[1..], c)
  }

  lemma JoinConsHead(ch: char, p: seq<string>, sep: string)
    requires |p| >= 1
    ensures Join([[ch] + p[0]] + p[1..], sep) == [ch] + Join(p, sep)
  {
    var q := [[ch] + p[0]] + p[1..];
    assert q[1..] == p[1..];
  }

  /** Splitting and joining back with the same separator gives the original text. */
  lemma {:induction false} SplitThenJoin(s: string, c: char)
    ensures Join(Split(s, c), [c]) == s
    decreases |s|
  {
    if |s| > 0 {
      var rest := Split(s[1..], c);
      SplitThenJoin(s[1..], c);
      if s[0] == c {
        var r := [""] + rest;
        assert r[1..] == rest;
        assert Join(r, [c]) == "" + [c] + Join(rest, [c]);
        assert s == [c] + s[1..];
      } else {
        JoinConsHead(s[0], rest, [c]);
        assert s == [s[0]] + s[1..];
      }
    }
  }

  /** No piece of a split contains the separator, and there is one more piece than separators. */
  lemma {:induction false} SplitPieces(s: string, c: char)
    ensures forall i :: 0 <= i < |Split(s, c)| ==> c !in Split(s, c)[i]
    ensures |Split(s, c)| == Count(s, c) + 1
    decreases |s|
  {
    if |s| > 0 {
      SplitPieces(s[1..], c);
      var rest := Split(s[1..], c);
      if s[0] != c {
        var r := [[s[0]] + rest[0]] + rest[1..];
        forall i | 0 <= i < |r| ensures c !in r[i] {
          if i > 0 { assert r[i] == rest[i]; }
        }
      }
    }
  }

  lemma {:induction false} SplitWithout(a: string, c: char)
    requires c !in a
    ensures Split(a, c) == [a]
    decreases |a|
  {
    if |a| > 0 {
      SplitWithout(a[1..], c);
      assert [a[0]] + a[1..] == a;
    }
  }

  lemma {:induction false} SplitAtFirst(a: string, c: char, b: string)
    requires c !in a
    ensures Split(a + [c] + b, c) == [a] + Split(b, c)
    decreases |a|
  {
    if |a| == 0 {
      assert a + [c] + b == [c] + b;
      assert ([c] + b)[1..] == b;
    } else {
      var s := a + [c] + b;
      assert s[1..] == a[1..] + [c] + b;
      assert s[0] == a[0];
      SplitAtFirst(a[1..], c, b);
      assert [a[0]] + a[1..] == a;
    }
  }

  /** Joining pieces that do not contain the separator and splitting again gives the pieces back. */
  lemma {:induction false} JoinThenSplit(parts: seq<string>, c: char)
    requires |parts| >= 1
    requires forall i :: 0 <= i < |parts| ==> c !in parts[i]
    ensures Split(Join(parts, [c]), c) == parts
    decreases |parts|
  {
    if |parts| == 1 {
      SplitWithout(parts[0], c);
    } else {
      JoinThenSplit(parts[1..], c);
      SplitAtFirst(parts[0], c, Join(parts[1..], [c]));
      assert [parts[0]] + parts[1..] == parts;
    }
  }

  // ---------------------------------------------------------------- trim

  /**
   * The characters `String.prototype.trim` removes: the ECMAScript WhiteSpace
   * (tab, vertical tab, form feed, space, no-break space, the byte order mark and
   * every space separator of Unicode category Zs) and LineTerminator code points.
   */
  predicate IsWhite(ch: char)
  {
    var u := ch as int;
    (0x09 <= u <= 0x0D) || u == 0x20 || u == 0xA0 || u == 0x1680 || (0x2000 <= u <= 0x200A)
    || u == 0x2028 || u == 0x2029 || u == 0x202F || u == 0x205F || u == 0x3000 || u == 0xFEFF
  }

  /** Drops the leading white space: what is left is a suffix that does not start with it. */
  function TrimStart(s: string): (r: string)
    ensures |r| <= |s| && r == s[|s| - |r|..]
    ensures forall i :: 0 <= i < |s| - |r| ==> IsWhite(s[i])
    ensures |r| > 0 ==> !IsWhite(r[0])
  {
    if |s| > 0 && IsWhite(s[0]) then TrimStart(s[1..]) else s
  }

  /** Drops the trailing white space: what is left is a prefix that does not end with it. */
  function TrimEnd(s: string): (r: string)
    ensures |r| <= |s| && r == s[..|r|]
    ensures forall i :: |r| <= i < |s| ==> IsWhite(s[i])
    ensures |r| > 0 ==> !IsWhite(r[|r| - 1])
  {
    if |s| > 0 && IsWhite(s[|s| - 1]) then TrimEnd(s[..|s| - 1]) else s
  }

  /** `s.trim()`. */
  function Trim(s: string): string
  {
    TrimEnd(TrimStart(s))
  }

  /** What trimming leaves neither starts nor ends with white space. */
  lemma TrimEdges(s: string)
    ensures |Trim(s)| > 0 ==> !IsWhite(Trim(s)[0]) && !IsWhite(Trim(s)[|Trim(s)| - 1])
  {
    var t := TrimStart(s);
    var r := TrimEnd(t);
    if |r| > 0 {
      assert r[0] == t[0];
    }
  }

  /** A text that neither starts nor ends with white space is its own trim. */
  lemma TrimKeeps(s: string)
    requires |s| > 0 && !IsWhite(s[0]) && !IsWhite(s[|s| - 1])
    ensures Trim(s) == s
  {
    assert TrimStart(s) == s;
  }

  // ---------------------------------------------------------------- decimal numbers

  predicate IsDigit(ch: char)
  {
    '0' <= ch <= '9'
  }

  predicate AllDigits(s: string)
  {
    forall i :: 0 <= i < |s| ==> IsDigit(s[i])
  }

  function DigitChar(d: nat): (ch: char)
    requires d < 10
    ensures IsDigit(ch)
  {
    ['0', '1', '2', '3', '4', '5', '6', '7', '8', '9'][d]
  }

  /** The value `Number(s)` gives to a string of decimal digits (the empty string is 0). */
  function DigitsValue(s: string): nat
    requires AllDigits(s)
  {
    if |s| == 0 then 0 else DigitsValue(s[..|s| - 1]) * 10 + (s[|s| - 1] as int - '0' as int)
  }

  /** `s.replace(/\D/g, "")`: keeps the decimal digits of `s`, in order. */
  function DigitsOf(s: string): (r: string)
    ensures AllDigits(r)
    ensures |r| <= |s|
  {
    if |s| == 0 then ""
    else if IsDigit(s[0]) then [s[0]] + DigitsOf(s[1..])
    else DigitsOf(s[1..])
  }

  /** Removing the non-digits is the identity exactly on strings that are all digits. */
  lemma {:induction false} DigitsOfIdentity(s: string)
    ensures DigitsOf(s) == s <==> AllDigits(s)
  {
    if |s| > 0 {
      DigitsOfIdentity(s[1..]);
      assert [s[0]] + s[1..] == s;
      if !IsDigit(s[0]) {
        assert |DigitsOf(s)| <= |s[1..]| < |s|;
      }
      if IsDigit(s[0]) && AllDigits(s[1..]) {
        assert AllDigits(s);
      }
    }
  }

  /** The number of decimal digits of `n`. */
  function NumDigits(n: nat): (k: nat)
    ensures k >= 1
  {
    if n < 10 then 1 else 1 + NumDigits(n / 10)
  }

  function Pow10(k: nat): (p: nat)
    ensures p >= 1
  {
    if k == 0 then 1 else 10 * Pow10(k - 1)
  }

  /** `String(n)` for a non-negative integer: its decimal digits, most significant first. */
  function NatToString(n: nat): (r: string)
    ensures AllDigits(r)
    ensures |r| == NumDigits(n)
  {
    if n < 10 then [DigitChar(n)] else NatToString(n / 10) + [DigitChar(n % 10)]
  }

  /** `String(n)` for any integer: a minus sign before the digits of a negative one. */
  function IntToString(n: int): string
  {
    if n < 0 then "-" + NatToString(-n) else NatToString(n)
  }

  /** Reading back the decimal text of a number gives the number. */
  lemma {:induction false} NatToStringRoundTrip(n: nat)
    ensures DigitsValue(NatToString(n)) == n
  {
    if n >= 10 {
      NatToStringRoundTrip(n / 10);
      var s := NatToString(n);
      assert s[..|s| - 1] == NatToString(n / 10);
    }
  }

  /** `n` has `NumDigits(n)` digits exactly when it lies between the matching powers of ten. */
  lemma {:induction false} NumDigitsBounds(n: nat)
    ensures n < Pow10(NumDigits(n))
    ensures NumDigits(n) > 1 ==> Pow10(NumDigits(n) - 1) <= n
  {
    if n >= 10 {
      NumDigitsBounds(n / 10);
    }
  }

  // ---------------------------------------------------------------- Number(text)

  /** Optional white space, an optional sign, then at least one digit. */
  predicate SignedDigits(t: string)
  {
    |t| >= 1
    && ((t[0] == '-' || t[0] == '+') ==> |t| >= 2 && AllDigits(t[1..]))
    && (t[0] != '-' && t[0] != '+' ==> AllDigits(t))
  }

  /**
   * `Number(s)` on decimal integer texts: a blank text is 0, a trimmed signed
   * run of digits is its value, anything else is NaN (`None`).
   */
  function NumberOf(s: string): (r: Option<int>)
    ensures Trim(s) == "" ==> r == Some(0)
    ensures Trim(s) != "" && !SignedDigits(Trim(s)) ==> r == None
  {
    var t := Trim(s);
    if t == "" then Some(0)
    else if !SignedDigits(t) then None
    else if t[0] == '-' then Some(0 - DigitsValue(t[1..]) as int)
    else if t[0] == '+' then Some(DigitsValue(t[1..]))
    else Some(DigitsValue(t))
  }

  /** A run of digits reads as its value. */
  lemma NumberOfDigitText(d: string)
    requires |d| >= 1 && AllDigits(d)
    ensures NumberOf(d) == Some(DigitsValue(d))
  {
    assert IsDigit(d[0]) && IsDigit(d[|d| - 1]);
    TrimKeeps(d);
  }

  /** A single digit reads as its value. */
  lemma NumberOfDigit(d: char)
    requires IsDigit(d)
    ensures NumberOf([d]) == Some(d as int - '0' as int)
  {
    var s := [d];
    assert AllDigits(s);
    assert s[..0] == "";
    assert DigitsValue("") == 0;
    assert DigitsValue(s) == d as int - '0' as int;
    NumberOfDigitText(s);
    assert NumberOf(s) == Some(DigitsValue(s));
  }

  /** A minus sign before a run of digits reads as the negated value. */
  lemma NumberOfNegated(t: string, d: string)
    requires |d| >= 1 && AllDigits(d) && t == "-" + d
    ensures NumberOf(t) == Some(0 - DigitsValue(d))
  {
    assert t[1..] == d;
    assert IsDigit(d[|d| - 1]) && t[|t| - 1] == d[|d| - 1];
    TrimKeeps(t);
    assert SignedDigits(t);
  }

  /** The decimal text of an integer reads back as that integer. */
  lemma NumberOfIntToString(n: int)
    ensures NumberOf(IntToString(n)) == Some(n)
  {
    if n < 0 {
      var m: nat := -n;
      var d := NatToString(m);
      NatToStringRoundTrip(m);
      NumberOfNegated(IntToString(n), d);
    } else {
      NatToStringRoundTrip(n);
      NumberOfDigitText(NatToString(n));
    }
  }
}
