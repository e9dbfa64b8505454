/** Six-digit room codes: the pattern `/^\d{6}$/` both pages test, the
    decimal rendering `Number.prototype.toString` gives a generated code,
    and the per-room key under which a browser keeps its identity. */
module RoomCode {

  /** `\d` of a JavaScript regular expression without the `u` flag. */
  predicate IsDigit(c: char)
  {
    '0' <= c <= '9'
  }

  predicate AllDigits(s: string)
  {
    forall k :: 0 <= k < |s| ==> IsDigit(s[k])
  }

  /** The pattern `/^\d{6}$/`. */
  predicate IsSixDigitCode(s: string)
  {
    |s| == 6 && AllDigits(s)
  }

  function DigitChar(d: nat): (c: char)
    requires d < 10
    ensures IsDigit(c) && c as int - '0' as int == d
  {
    ('0' as int + d) as char
  }

  function DigitValue(c: char): (d: nat)
    requires IsDigit(c)
    ensures d < 10 && DigitChar(d) == c
  {
    c as int - '0' as int
  }

  /** `n.toString()` for a non-negative integer: its decimal digits,
      most significant first, with no leading zero. */
  function DecimalString(n: nat): (s: string)
    ensures |s| >= 1 && AllDigits(s)
    ensures |s| > 1 ==> s[0] != '0'
    decreases n
  {
    if n < 10 then [DigitChar(n)] else DecimalString(n / 10) + [DigitChar(n % 10)]
  }

  /** The number a string of decimal digits denotes. */
  function DecimalValue(s: string): nat
    requires AllDigits(s)
  {
    if s == [] then 0 else DecimalValue(s[..|s| - 1]) * 10 + DigitValue(s[|s| - 1])
  }

  function Pow10(k: nat): (p: nat)
    ensures p >= 1
  {
    if k == 0 then 1 else 10 * Pow10(k - 1)
  }

  /** Reading back the decimal rendering of `n` gives `n`. */
  lemma {:induction false} DecimalRoundTrip(n: nat)
    ensures DecimalValue(DecimalString(n)) == n
    decreases n
  {
    var s := DecimalString(n);
    if n >= 10 {
      DecimalRoundTrip(n / 10);
      assert s[..|s| - 1] == DecimalString(n / 10);
    }
  }

  /** A number with `k + 1` digits renders as `k + 1` characters. */
  lemma {:induction false} DecimalLength(n: nat, k: nat)
    requires Pow10(k) <= n < Pow10(k + 1)
    ensures |DecimalString(n)| == k + 1
    decreases k
  {
    if k > 0 {
      var p := Pow10(k - 1);
      assert 10 * p <= n < 100 * p;
      assert p <= n / 10 < 10 * p;
      DecimalLength(n / 10, k - 1);
    }
  }

  /** Lowest code and the number of codes: `Math.floor(100000 +
      Math.random() * 900000)`. */
  const CodeBase: nat := 100000
  const CodeSpan: nat := 900000

  /** The room code `createRoom` generates when the random draw puts it
      `r` places above the lowest code: always exactly six digits, and
      it denotes `100000 + r`, a number in [100000, 999999]. */
  function GenerateRoomCode(r: int): (code: string)
    requires 0 <= r < CodeSpan
    ensures IsSixDigitCode(code)
    ensures DecimalValue(code) == CodeBase + r
    ensures CodeBase <= DecimalValue(code) <= 999999
  {
    DecimalLength(CodeBase + r, 5);
    DecimalRoundTrip(CodeBase + r);
    DecimalString(CodeBase + r)
  }

  /** `room_${code}_user`: the localStorage key of a browser's identity
      in a room. */
  function StorageKey(code: string): (key: string)
    ensures |key| == |code| + 10
    ensures key[..5] == "room_" && key[|key| - 5..] == "_user"
    ensures key[5..|key| - 5] == code
  {
    "room_" + code + "_user"
  }

  /** Different rooms never share a storage key. */
  lemma StorageKeyInjective(a: string, b: string)
    ensures StorageKey(a) == StorageKey(b) <==> a == b
  {
    if StorageKey(a) == StorageKey(b) {
      assert a == StorageKey(a)[5..|StorageKey(a)| - 5];
    }
  }
}
