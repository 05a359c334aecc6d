/**
 * The token generator of the account service: six-digit verification codes
 * drawn from a uniform random number, hexadecimal reset tokens drawn from
 * random bytes, the expiry windows attached to both, and the reset link that
 * carries a reset token to the client.
 */
module Tokens {
  import opened Wrappers

  /** 24 hours in milliseconds: the lifetime of a verification code. */
  const VerificationWindow: int := 24 * 60 * 60 * 1000

  /** One hour in milliseconds: the lifetime of a reset token. */
  const ResetWindow: int := 1 * 60 * 60 * 1000

  /** Number of random bytes behind one reset token. */
  const ResetTokenBytes: nat := 20

  newtype byte = x: int | 0 <= x < 256

  // ---------------------------------------------------------------------
  // Decimal strings (JavaScript's Number.prototype.toString on integers)
  // ---------------------------------------------------------------------

  predicate IsDigit(c: char) {
    '0' <= c <= '9'
  }

  predicate AllDigits(s: string) {
    forall i :: 0 <= i < |s| ==> IsDigit(s[i])
  }

  function DigitChar(d: nat): (c: char)
    requires d < 10
    ensures IsDigit(c) && c as int - '0' as int == d
  {
    ('0' as int + d) as char
  }

  function Pow10(k: nat): nat
  {
    if k == 0 then 1 else 10 * Pow10(k - 1)
  }

  /** The shortest decimal spelling of `n`, most significant digit first. */
  function DecimalString(n: nat): (s: string)
    ensures |s| >= 1 && AllDigits(s)
    ensures (s[0] == '0') <==> (n == 0)
    decreases n
  {
    if n < 10 then [DigitChar(n)] else DecimalString(n / 10) + [DigitChar(n % 10)]
  }

  /** The number a string of decimal digits denotes. */
  function ParseDecimal(s: string): nat
    requires AllDigits(s)
  {
    if s == [] then 0
    else ParseDecimal(s[..|s| - 1]) * 10 + (s[|s| - 1] as int - '0' as int)
  }

  /** Parsing undoes printing. */
  lemma {:induction false} ParseDecimalString(n: nat)
    ensures ParseDecimal(DecimalString(n)) == n
    decreases n
  {
    var s := DecimalString(n);
    if n >= 10 {
      ParseDecimalString(n / 10);
      assert s[..|s| - 1] == DecimalString(n / 10);
    }
  }

  /** A number with exactly `k` digits prints as exactly `k` characters. */
  lemma {:induction false} DecimalLength(n: nat, k: nat)
    requires k >= 1 && Pow10(k - 1) <= n < Pow10(k)
    ensures |DecimalString(n)| == k
    decreases k
  {
    if k > 1 {
      DecimalLength(n / 10, k - 1);
    }
  }

  // ---------------------------------------------------------------------
  // Verification codes
  // ---------------------------------------------------------------------

  /** The format of a verification code: six decimal digits, no leading zero. */
  predicate IsVerificationCode(s: string) {
    |s| == 6 && AllDigits(s) && s[0] != '0'
  }

  /**
   * `Math.floor(100000 + r * 900000)` for a draw `r` of `Math.random()`,
   * which lies in [0, 1). Reals stand for JavaScript's doubles.
   */
  function CodeNumber(r: real): (n: int)
    requires 0.0 <= r < 1.0
    ensures 100000 <= n <= 999999
  {
    (100000.0 + r * 900000.0).Floor
  }

  /** The verification code signup draws: the decimal spelling of `CodeNumber(r)`. */
  function VerificationCode(r: real): (code: string)
    requires 0.0 <= r < 1.0
    ensures IsVerificationCode(code)
    ensures ParseDecimal(code) == CodeNumber(r)
  {
    var n := CodeNumber(r);
    assert Pow10(5) == 100000 && Pow10(6) == 1000000 by {
      assert Pow10(2) == 100;
      assert Pow10(4) == 10000;
    }
    DecimalLength(n, 6);
    ParseDecimalString(n);
    DecimalString(n)
  }

  // ---------------------------------------------------------------------
  // Reset tokens (Node's Buffer.toString("hex"))
  // ---------------------------------------------------------------------

  predicate IsHexChar(c: char) {
    '0' <= c <= '9' || 'a' <= c <= 'f'
  }

  predicate AllHex(s: string) {
    forall i :: 0 <= i < |s| ==> IsHexChar(s[i])
  }

  function HexChar(d: int): (c: char)
    requires 0 <= d < 16
    ensures IsHexChar(c)
  {
    if d < 10 then ('0' as int + d) as char else ('a' as int + d - 10) as char
  }

  function HexValue(c: char): (d: int)
    requires IsHexChar(c)
    ensures 0 <= d < 16
  {
    if c <= '9' then c as int - '0' as int else c as int - 'a' as int + 10
  }

  lemma HexValueOfChar(d: int)
    requires 0 <= d < 16
    ensures HexValue(HexChar(d)) == d
  {
  }

  /** Two lower-case hexadecimal digits per byte, high nibble first. */
  function HexEncode(bytes: seq<byte>): (s: string)
    ensures |s| == 2 * |bytes| && AllHex(s)
  {
    if bytes == [] then []
    else [HexChar(bytes[0] as int / 16), HexChar(bytes[0] as int % 16)] + HexEncode(bytes[1..])
  }

  function HexDecode(s: string): (bytes: seq<byte>)
    requires |s| % 2 == 0 && AllHex(s)
    ensures |bytes| == |s| / 2
  {
    if s == [] then []
    else [(HexValue(s[0]) * 16 + HexValue(s[1])) as byte] + HexDecode(s[2..])
  }

  /** Decoding the hex spelling gives back the random bytes: two draws give equal tokens only if the bytes were equal. */
  lemma {:induction false} HexRoundTrip(bytes: seq<byte>)
    ensures HexDecode(HexEncode(bytes)) == bytes
  {
    if bytes != [] {
      var b := bytes[0] as int;
      var s := HexEncode(bytes);
      HexValueOfChar(b / 16);
      HexValueOfChar(b % 16);
      assert s[2..] == HexEncode(bytes[1..]);
      HexRoundTrip(bytes[1..]);
    }
  }

  /** The format of a reset token: forty lower-case hexadecimal digits. */
  predicate IsResetToken(s: string) {
    |s| == 2 * ResetTokenBytes && AllHex(s)
  }

  /** `randomBytes(20).toString("hex")` for the drawn bytes. */
  function ResetToken(bytes: seq<byte>): (token: string)
    requires |bytes| == ResetTokenBytes
    ensures IsResetToken(token)
    ensures HexDecode(token) == bytes
  {
    HexRoundTrip(bytes);
    HexEncode(bytes)
  }

  // ---------------------------------------------------------------------
  // Reset link
  // ---------------------------------------------------------------------

  const ResetPath: string := "/reset-password/"

  /** How a template literal renders a configuration value: an unset one reads "undefined". */
  function ConfigText(value: Option<string>): string
  {
    value.GetOr("undefined")
  }

  /** `${CLIENT_URI}/reset-password/${token}`. */
  function ResetLink(clientUri: Option<string>, token: string): (link: string)
    ensures |link| == |ConfigText(clientUri)| + |ResetPath| + |token|
    ensures link[..|ConfigText(clientUri)|] == ConfigText(clientUri)
    ensures link[|ConfigText(clientUri)|..|link| - |token|] == ResetPath
    ensures TokenOfLink(clientUri, link) == token
  {
    ConfigText(clientUri) + ResetPath + token
  }

  /** What the reset page reads back out of a link: everything after the client address and the path. */
  function TokenOfLink(clientUri: Option<string>, link: string): string
  {
    var k := |ConfigText(clientUri)| + |ResetPath|;
    if k <= |link| then link[k..] else ""
  }
}
