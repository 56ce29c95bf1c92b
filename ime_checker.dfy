/**
 * The helper process's state derivation and wire encoding. The operating
 * system's answers (IME open status, conversion mode, caps-lock key state)
 * are taken as plain integers; the Win32 calls that produce them are not
 * part of this model.
 */
module ImeChecker {

  /**
   * `x & 1` on a Python integer: bit 0 of its two's-complement form. Dafny's
   * `%` is Euclidean, so `x % 2` is that bit for negative `x` too.
   */
  function LowBit(x: int): (b: int)
    ensures b == 0 || b == 1
    ensures (x - b) % 2 == 0
  {
    x % 2
  }

  /** On a Win32 SHORT (what `GetKeyState` returns), `LowBit` is the bitwise AND with 1. */
  lemma LowBitIsBitwiseAnd16(x: int)
    requires -0x8000 <= x < 0x8000
    ensures LowBit(x) == ((((x % 0x1_0000) as bv16) & 1) as int)
  {
    var u := x % 0x1_0000;
    assert u % 2 == x % 2;
    var v := u as bv16;
    assert (v & 1) == v % 2;
  }

  /**
   * `IME.get_input_mode`: 0 (English) when the IME is closed, otherwise bit 0
   * of the conversion mode (1 means native, e.g. Chinese, input). Always 0 or 1.
   */
  function InputMode(openStatus: int, conversionMode: int): (mode: int)
    ensures mode == 0 || mode == 1
    ensures openStatus == 0 ==> mode == 0
    ensures openStatus != 0 ==> (mode == 1 <==> conversionMode % 2 == 1)
  {
    if openStatus == 0 then 0 else LowBit(conversionMode)
  }

  /**
   * `IME.is_caps_lock_on`: the toggle bit (bit 0) of the caps-lock key state
   * is set; on a SHORT key state that is the bitwise AND with 1.
   */
  function IsCapsLockOn(keyState: int): (on: bool)
    ensures on <==> keyState % 2 == 1
    ensures -0x8000 <= keyState < 0x8000 ==> (on <==> (((keyState % 0x1_0000) as bv16) & 1) == 1)
  {
    var on := LowBit(keyState) != 0;
    if -0x8000 <= keyState < 0x8000 then
      LowBitIsBitwiseAnd16(keyState);
      on
    else
      on
  }

  /** The character of one decimal digit. */
  function DigitChar(d: int): (c: char)
    requires 0 <= d < 10
    ensures '0' <= c <= '9'
    ensures c as int - '0' as int == d
  {
    "0123456789"[d]
  }

  /** Python's `str(n)` for a natural number: its decimal digits, with no leading zero. */
  function NatString(n: nat): (s: string)
    ensures |s| >= 1
    ensures forall i :: 0 <= i < |s| ==> '0' <= s[i] <= '9'
    ensures |s| == 1 <==> n < 10
    ensures s[0] == '0' ==> n == 0
    decreases n
  {
    if n < 10 then [DigitChar(n)] else NatString(n / 10) + [DigitChar(n % 10)]
  }

  /** The number a string of decimal digits denotes: the inverse of `NatString`. */
  function DigitsValue(s: string): nat
    requires forall i :: 0 <= i < |s| ==> '0' <= s[i] <= '9'
  {
    if s == [] then 0
    else DigitsValue(s[..|s| - 1]) * 10 + (s[|s| - 1] as int - '0' as int)
  }

  lemma {:induction false} NatStringValue(n: nat)
    ensures DigitsValue(NatString(n)) == n
    decreases n
  {
    if n >= 10 {
      var s := NatString(n);
      assert s[..|s| - 1] == NatString(n / 10);
      NatStringValue(n / 10);
    }
  }

  /** Python's `str(n)` for any integer: a minus sign in front of the digits when negative. */
  function IntString(n: int): (s: string)
    ensures |s| >= 1
    ensures s[0] == '-' <==> n < 0
    ensures forall i :: (if n < 0 then 1 else 0) <= i < |s| ==> '0' <= s[i] <= '9'
    ensures '0' <= s[|s| - 1] <= '9'
  {
    if n < 0 then "-" + NatString(-n) else NatString(n)
  }

  /** `str(n)` is "0" exactly for 0 and "1" exactly for 1. */
  lemma IntStringSmall(n: int)
    ensures IntString(n) == "0" <==> n == 0
    ensures IntString(n) == "1" <==> n == 1
  {
    if n >= 0 {
      var s := NatString(n);
      if |s| == 1 {
        assert DigitsValue(s) == s[0] as int - '0' as int by {
          assert s[..0] == [];
        }
        NatStringValue(n);
      }
    }
  }

  /** Python's `str(b)` for a boolean. */
  function BoolString(b: bool): (s: string)
    ensures s == "True" || s == "False"
    ensures s == "True" <==> b
  {
    if b then "True" else "False"
  }

  /** How many times `c` occurs in `s`. */
  function Count(s: string, c: char): nat
  {
    if s == [] then 0 else Count(s[..|s| - 1], c) + (if s[|s| - 1] == c then 1 else 0)
  }

  lemma {:induction false} CountAppend(s: string, t: string, c: char)
    ensures Count(s + t, c) == Count(s, c) + Count(t, c)
    decreases |t|
  {
    if t == [] {
      assert s + t == s;
    } else {
      assert (s + t)[..|s + t| - 1] == s + t[..|t| - 1];
      CountAppend(s, t[..|t| - 1], c);
    }
  }

  lemma {:induction false} CountAbsent(s: string, c: char)
    requires c !in s
    ensures Count(s, c) == 0
    decreases |s|
  {
    if s != [] {
      CountAbsent(s[..|s| - 1], c);
    }
  }

  /** The status line of `send_data`: `f"{input_mode},{caps_lock_on}\n"`. */
  function Message(inputMode: int, capsLockOn: bool): (m: string)
    ensures Count(m, ',') == 1
    ensures Count(m, '\n') == 1
    ensures m[|m| - 1] == '\n'
  {
    var digits := IntString(inputMode);
    var flag := BoolString(capsLockOn);
    IntStringPlain(inputMode);
    CountAbsent(digits, ','); CountAbsent(digits, '\n');
    CountAbsent(flag, ','); CountAbsent(flag, '\n');
    LineCounts(digits, flag);
    digits + "," + flag + "\n"
  }

  /** Counting the separators of a line built from two separator-free fields. */
  lemma LineCounts(a: string, b: string)
    requires Count(a, ',') == 0 && Count(a, '\n') == 0
    requires Count(b, ',') == 0 && Count(b, '\n') == 0
    ensures Count(a + "," + b + "\n", ',') == 1
    ensures Count(a + "," + b + "\n", '\n') == 1
    ensures (a + "," + b + "\n")[|a| + |b| + 1] == '\n'
  {
    CountAppend(a, ",", ','); CountAppend(a + ",", b, ','); CountAppend(a + "," + b, "\n", ',');
    CountAppend(a, ",", '\n'); CountAppend(a + ",", b, '\n'); CountAppend(a + "," + b, "\n", '\n');
    assert Count(",", ',') == 1 && Count(",", '\n') == 0 by { assert ","[..0] == []; }
    assert Count("\n", ',') == 0 && Count("\n", '\n') == 1 by { assert "\n"[..0] == []; }
  }

  /** No comma and no line break occurs in `str(n)`. */
  lemma IntStringPlain(n: int)
    ensures ',' !in IntString(n) && '\n' !in IntString(n)
  {
    var digits := IntString(n);
    forall i | 0 <= i < |digits| ensures digits[i] != ',' && digits[i] != '\n' {
      if i > 0 { assert '0' <= digits[i] <= '9'; }
    }
  }

  /** The line the helper sends for the given operating-system readings. */
  function HelperMessage(openStatus: int, conversionMode: int, keyState: int): (m: string)
    ensures m == "0,False\n" || m == "0,True\n" || m == "1,False\n" || m == "1,True\n"
    ensures m[0] == '1' <==> openStatus != 0 && conversionMode % 2 == 1
    ensures m[2] == 'T' <==> keyState % 2 == 1
  {
    var mode := InputMode(openStatus, conversionMode);
    var caps := IsCapsLockOn(keyState);
    BitMessage(mode, caps);
    Message(mode, caps)
  }

  /** The four lines a helper can send. */
  lemma BitMessage(mode: int, caps: bool)
    requires mode == 0 || mode == 1
    ensures Message(mode, caps) == (if mode == 1 then if caps then "1,True\n" else "1,False\n"
                                    else if caps then "0,True\n" else "0,False\n")
  {
    if mode == 1 {
      OneMessage(caps);
    } else {
      ZeroMessage(caps);
    }
  }

  lemma OneMessage(caps: bool)
    ensures Message(1, caps) == if caps then "1,True\n" else "1,False\n"
  {
    assert IntString(1) == "1";
  }

  lemma ZeroMessage(caps: bool)
    ensures Message(0, caps) == if caps then "0,True\n" else "0,False\n"
  {
    assert IntString(0) == "0";
  }
}
