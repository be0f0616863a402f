/** String helpers with the semantics of the JavaScript built-ins the source uses:
    decimal rendering of numbers, `padStart`, `Array.prototype.join` and `String.prototype.split`
    with a one-character separator. A Dafny `char` is a Unicode scalar value; the model treats
    each one as a single JavaScript code unit, so text outside the Basic Multilingual Plane
    (where JavaScript counts two units per character) is not modelled. */
module Text {

  predicate IsDigit(c: char)
  {
    '0' <= c <= '9'
  }

  predicate AllDigits(s: string)
  {
    forall i :: 0 <= i < |s| ==> IsDigit(s[i])
  }

  function DigitChar(d: nat): (c: char)
    requires d < 10
    ensures IsDigit(c) && (c as int) - ('0' as int) == d
  {
    (d + '0' as int) as char
  }

  function DigitValue(c: char): (d: nat)
    requires IsDigit(c)
    ensures d < 10 && DigitChar(d) == c
  {
    (c as int) - ('0' as int)
  }

  /** `String(n)` for a natural number: its decimal digits, no leading zeros. */
  function NatToString(n: nat): (s: string)
    ensures |s| >= 1 && AllDigits(s)
    ensures |s| > 1 ==> s[0] != '0'
    decreases n
  {
    if n < 10 then [DigitChar(n)] else NatToString(n / 10) + [DigitChar(n % 10)]
  }

  /** `String(i)` for an integer: a minus sign before the digits of a negative value. */
  function IntToString(i: int): (s: string)
    ensures |s| >= 1
    ensures i >= 0 <==> s[0] != '-'
  {
    if i < 0 then "-" + NatToString(-i) else NatToString(i)
  }

  /** The value of a string of decimal digits (leading zeros allowed), as `Number` reads it. */
  function DigitsValue(s: string): nat
    requires AllDigits(s)
  {
    if s == [] then 0 else 10 * DigitsValue(s[..|s| - 1]) + DigitValue(s[|s| - 1])
  }

  /** `s` is `n` written in decimal digits, leading zeros allowed. */
  predicate Decimal(s: string, n: nat)
  {
    AllDigits(s) && DigitsValue(s) == n
  }

  lemma {:induction false} NatToStringRoundTrip(n: nat)
    ensures DigitsValue(NatToString(n)) == n
    decreases n
  {
    if n >= 10 {
      var s := NatToString(n);
      assert s[..|s| - 1] == NatToString(n / 10);
      NatToStringRoundTrip(n / 10);
    }
  }

  function Repeat(c: char, k: nat): (r: string)
    ensures |r| == k && forall i :: 0 <= i < k ==> r[i] == c
  {
    if k == 0 then [] else Repeat(c, k - 1) + [c]
  }

  /** `s.padStart(width, c)` for a one-character pad: never truncates. */
  function PadStart(s: string, width: nat, c: char): (r: string)
    ensures |r| == if |s| >= width then |s| else width
    ensures r[|r| - |s|..] == s
    ensures forall i :: 0 <= i < |r| - |s| ==> r[i] == c
  {
    if |s| >= width then s else Repeat(c, width - |s|) + s
  }

  /** Leading zeros do not change the value of a digit string. */
  lemma {:induction false} LeadingZeros(z: nat, s: string)
    requires AllDigits(s)
    ensures AllDigits(Repeat('0', z) + s)
    ensures DigitsValue(Repeat('0', z) + s) == DigitsValue(s)
    decreases z
  {
    if z == 0 {
      assert Repeat('0', z) + s == s;
    } else {
      var u := Repeat('0', z - 1) + s;
      RepeatCons('0', z - 1);
      assert Repeat('0', z) + s == ['0'] + u;
      LeadingZeros(z - 1, s);
      ZeroPrefix(u);
    }
  }

  /** One leading zero does not change the value of a digit string. */
  lemma {:induction false} ZeroPrefix(t: string)
    requires AllDigits(t)
    ensures AllDigits(['0'] + t) && DigitsValue(['0'] + t) == DigitsValue(t)
    decreases |t|
  {
    var u := ['0'] + t;
    assert forall i :: 0 <= i < |u| ==> u[i] == if i == 0 then '0' else t[i - 1];
    if t == [] {
      assert u[..0] == [];
    } else {
      var p := t[..|t| - 1];
      assert u[..|u| - 1] == ['0'] + p;
      assert AllDigits(p);
      ZeroPrefix(p);
    }
  }

  /** Natural numbers below 10^k have at most k digits. */
  lemma {:induction false} NatToStringLength(n: nat, k: nat, p: nat)
    requires p == Pow10(k) && n < p
    ensures |NatToString(n)| <= k || (n == 0 && k == 0)
    decreases k
  {
    if n >= 10 {
      assert Pow10(0) == 1 && Pow10(1) == 10;
      assert k >= 2;
      NatToStringLength(n / 10, k - 1, Pow10(k - 1));
    } else if k == 0 {
      assert n == 0;
    }
  }

  function Pow10(k: nat): (p: nat)
    ensures p >= 1
  {
    if k == 0 then 1 else 10 * Pow10(k - 1)
  }

  /** The zero-padded decimal field used for a cross-reference offset: exactly `width` digits
      when the number fits, and reading it back gives the number. */
  lemma PaddedDecimal(n: nat, width: nat)
    requires width >= 1 && n < Pow10(width)
    ensures |PadStart(NatToString(n), width, '0')| == width
    ensures AllDigits(PadStart(NatToString(n), width, '0'))
    ensures DigitsValue(PadStart(NatToString(n), width, '0')) == n
  {
    var s := NatToString(n);
    NatToStringLength(n, width, Pow10(width));
    NatToStringRoundTrip(n);
    var z := width - |s|;
    LeadingZeros(z, s);
    if z == 0 {
      assert Repeat('0', z) + s == s;
    }
    assert PadStart(s, width, '0') == Repeat('0', z) + s;
  }

  lemma DivMod10(a: nat, d: nat)
    requires d < 10
    ensures (10 * a + d) / 10 == a && (10 * a + d) % 10 == d
  {
  }

  /** A digit string without superfluous leading zeros is what `String(Number(s))` prints. */
  lemma {:induction false} CanonicalDigits(s: string)
    requires AllDigits(s) && |s| >= 1 && (|s| == 1 || s[0] != '0')
    ensures NatToString(DigitsValue(s)) == s
    ensures |s| > 1 ==> DigitsValue(s) >= 10
    decreases |s|
  {
    var p := s[..|s| - 1];
    var d := DigitValue(s[|s| - 1]);
    assert DigitsValue(s) == 10 * DigitsValue(p) + d;
    if |s| == 1 {
      assert p == [];
    } else {
      CanonicalDigits(p);
      var w := DigitsValue(p);
      if |p| == 1 {
        assert p[..0] == [];
        assert w == DigitValue(p[0]);
        assert DigitChar(w) == p[0] && p[0] == s[0];
        assert w != 0;
      }
      assert w >= 1;
      var v := 10 * w + d;
      DivMod10(w, d);
      assert NatToString(v) == NatToString(w) + [DigitChar(d)];
      assert s == p + [s[|s| - 1]];
    }
  }

  lemma RepeatCons(c: char, k: nat)
    ensures Repeat(c, k + 1) == [c] + Repeat(c, k)
  {
    assert forall i :: 0 <= i < k + 1 ==> Repeat(c, k + 1)[i] == ([c] + Repeat(c, k))[i];
  }

  lemma PadOneMore(x: string, w: nat)
    requires |x| <= w
    ensures PadStart(x, w + 1, '0') == ['0'] + PadStart(x, w, '0')
  {
    RepeatCons('0', w - |x|);
  }

  /** Padding `String(Number(s))` back to the width of `s` with zeros restores `s`. */
  lemma {:induction false} PadCanonical(s: string)
    requires AllDigits(s) && |s| >= 1
    ensures |NatToString(DigitsValue(s))| <= |s|
    ensures PadStart(NatToString(DigitsValue(s)), |s|, '0') == s
    decreases |s|
  {
    if |s| > 1 && s[0] == '0' {
      var t := s[1..];
      assert s == ['0'] + t;
      ZeroPrefix(t);
      PadCanonical(t);
      PadOneMore(NatToString(DigitsValue(t)), |t|);
    } else {
      CanonicalDigits(s);
      assert NatToString(DigitsValue(s)) == s;
      assert PadStart(s, |s|, '0') == s;
    }
  }

  /** `parts.join(sep)`. */
  function Join(parts: seq<string>, sep: string): string
  {
    if |parts| == 0 then ""
    else if |parts| == 1 then parts[0]
    else parts[0] + sep + Join(parts[1..], sep)
  }

  /** `s.split(c)` for a one-character separator: always at least one (possibly empty) piece. */
  function Split(s: string, c: char): (r: seq<string>)
    ensures |r| >= 1
    ensures forall i :: 0 <= i < |r| ==> c !in r[i]
  {
    if s == [] then [""]
    else if s[0] == c then [""] + Split(s[1..], c)
    else var rest := Split(s[1..], c); [[s[0]] + rest[0]] + rest[1..]
  }

  /** Splitting and joining again with the same separator gives back the string. */
  lemma {:induction false} JoinSplit(s: string, c: char)
    ensures Join(Split(s, c), [c]) == s
  {
    if s != [] {
      JoinSplit(s[1..], c);
      var rest := Split(s[1..], c);
      if s[0] != c {
        if |rest| > 1 {
          assert rest == [rest[0]] + rest[1..];
        }
      }
    }
  }

  /** Joining separator-free pieces and splitting again gives back the pieces. */
  lemma {:induction false} SplitJoin(parts: seq<string>, c: char)
    requires |parts| >= 1
    requires forall i :: 0 <= i < |parts| ==> c !in parts[i]
    ensures Split(Join(parts, [c]), c) == parts
    decreases |parts|, |parts[0]|
  {
    if |parts| == 1 {
      SplitPiece(parts[0], c);
    } else {
      SplitJoin(parts[1..], c);
      SplitPrefix(parts[0], Join(parts[1..], [c]), c);
      assert Join(parts, [c]) == parts[0] + ([c] + Join(parts[1..], [c]));
    }
  }

  lemma {:induction false} SplitPiece(p: string, c: char)
    requires c !in p
    ensures Split(p, c) == [p]
  {
    if p != [] {
      SplitPiece(p[1..], c);
      assert [p[0]] + p[1..] == p;
    }
  }

  lemma {:induction false} SplitPrefix(p: string, t: string, c: char)
    requires c !in p
    ensures Split(p + [c] + t, c) == [p] + Split(t, c)
  {
    if p == [] {
      assert p + [c] + t == [c] + t;
      assert ([c] + t)[1..] == t;
    } else {
      assert (p + [c] + t)[1..] == p[1..] + [c] + t;
      SplitPrefix(p[1..], t, c);
      assert [p[0]] + p[1..] == p;
    }
  }
}
