/** The colour arithmetic of `render_template` (src/main.rs): a slot value is
    cut into three two-character channels, each channel is parsed with
    `i32::from_str_radix(_, 16)` and divided by 255 with Rust's truncating
    integer division, and the quotient is printed in decimal. */
module Colors {
  import opened Wrappers
  import opened Strings

  /** An ASCII hexadecimal digit, either case (`char::to_digit(16)`). */
  predicate IsHexDigit(c: char) {
    '0' <= c <= '9' || 'a' <= c <= 'f' || 'A' <= c <= 'F'
  }

  function DigitValue(c: char): (d: nat)
    requires IsHexDigit(c)
    ensures d < 16
  {
    if '0' <= c <= '9' then c as int - '0' as int
    else if 'a' <= c <= 'f' then c as int - 'a' as int + 10
    else c as int - 'A' as int + 10
  }

  /** `i32::from_str_radix(c, 16)` on a two-character channel. The parser
      accepts an optional leading '+' or '-' before the digits, so "+f" reads
      as 15 and "-f" as -15; a lone sign or any other character is an error. */
  function ParseChannel(c: string): (r: Option<int>)
    requires |c| == 2
    ensures r.Some? ==> -15 <= r.value <= 255
  {
    if IsHexDigit(c[0]) && IsHexDigit(c[1]) then Some(16 * DigitValue(c[0]) + DigitValue(c[1]))
    else if c[0] == '+' && IsHexDigit(c[1]) then Some(DigitValue(c[1]))
    else if c[0] == '-' && IsHexDigit(c[1]) then Some(-(DigitValue(c[1]) as int))
    else None
  }

  /** Lower-case hexadecimal digit of a value below 16. */
  function LowerHexDigit(d: nat): (c: char)
    requires d < 16
    ensures IsHexDigit(c) && DigitValue(c) == d && LowerChar(c) == c
  {
    if d < 10 then ('0' as int + d) as char else ('a' as int + d - 10) as char
  }

  /** A byte written as two lower-case hexadecimal digits. */
  function HexByte(n: nat): (s: string)
    requires n < 256
    ensures |s| == 2
  {
    [LowerHexDigit(n / 16), LowerHexDigit(n % 16)]
  }

  /** Parsing inverts the two-digit encoding of every byte. */
  lemma ParseHexByte(n: nat)
    requires n < 256
    ensures ParseChannel(HexByte(n)) == Some(n)
  {
  }

  /** A channel of two hexadecimal digits is the encoding of the value it
      parses to, up to letter case. */
  lemma HexByteOfParse(c: string)
    requires |c| == 2 && IsHexDigit(c[0]) && IsHexDigit(c[1])
    ensures ParseChannel(c).Some? && 0 <= ParseChannel(c).value < 256
    ensures Lower(c) == HexByte(ParseChannel(c).value)
  {
    var n := ParseChannel(c).value;
    assert n / 16 == DigitValue(c[0]) && n % 16 == DigitValue(c[1]);
  }

  /** Rust's `/` on integers: the quotient truncated toward zero. */
  function TruncDiv(a: int, b: int): (q: int)
    requires b > 0
    ensures a >= 0 ==> 0 <= a - q * b < b
    ensures a < 0 ==> 0 <= q * b - a < b
  {
    if a >= 0 then a / b else -((-a) / b)
  }

  /** `rgb / 255`: the "decimal" channel of the source. */
  function DecChannel(rgb: int): (d: int)
    ensures -255 < rgb < 255 ==> d == 0
    ensures rgb == 255 ==> d == 1
  {
    TruncDiv(rgb, 255)
  }

  /** Every value a channel can parse to gives 0 or 1, and 1 exactly for 255. */
  lemma DecChannelIsFlag(rgb: int)
    requires -15 <= rgb <= 255
    ensures DecChannel(rgb) == (if rgb == 255 then 1 else 0)
  {
  }

  /** The decimal digits of a natural number, most significant first. */
  function NatString(n: nat): (s: string)
    ensures |s| > 0 && forall i :: 0 <= i < |s| ==> '0' <= s[i] <= '9'
  {
    if n < 10 then [('0' as int + n) as char]
    else NatString(n / 10) + [('0' as int + n % 10) as char]
  }

  /** `i32::to_string`: an optional minus sign and the decimal digits. */
  function IntString(n: int): (s: string)
    ensures |s| > 0 && (s[0] == '-' <==> n < 0)
  {
    if n < 0 then "-" + NatString(-n) else NatString(n)
  }

  /** The value of a string of decimal digits. */
  function DecimalValue(s: string): nat
    requires forall i :: 0 <= i < |s| ==> '0' <= s[i] <= '9'
  {
    if |s| == 0 then 0 else 10 * DecimalValue(s[..|s| - 1]) + (s[|s| - 1] as int - '0' as int)
  }

  /** Reading the decimal digits back gives the number. */
  lemma {:induction false} NatStringRoundTrip(n: nat)
    ensures DecimalValue(NatString(n)) == n
  {
    if n >= 10 {
      var s := NatString(n);
      assert s[..|s| - 1] == NatString(n / 10);
      NatStringRoundTrip(n / 10);
    }
  }

  /** The three channels of a slot value as `render_template` derives them:
      the two-character hex slices and their decimal quotients. */
  datatype Channels = Channels(hexR: string, hexG: string, hexB: string, decR: int, decG: int, decB: int)

  /** `value[0..2]`, `value[2..4]`, `value[4..6]`, each parsed and divided by
      255; `None` where the source panics (a value shorter than six
      characters, or a slice that does not parse). */
  function SplitChannels(v: string): (r: Option<Channels>)
    ensures r.Some? ==> |v| >= 6 && r.value.hexR + r.value.hexG + r.value.hexB == v[..6]
    ensures r.Some? ==> r.value.hexR == v[0..2] && r.value.hexG == v[2..4] && r.value.hexB == v[4..6]
    ensures r.Some? ==> r.value.decR in {0, 1} && r.value.decG in {0, 1} && r.value.decB in {0, 1}
  {
    if |v| < 6 then None
    else
      var hexR, hexG, hexB := v[0..2], v[2..4], v[4..6];
      match (ParseChannel(hexR), ParseChannel(hexG), ParseChannel(hexB))
        case (Some(r), Some(g), Some(b)) =>
          DecChannelIsFlag(r);
          DecChannelIsFlag(g);
          DecChannelIsFlag(b);
          Some(Channels(hexR, hexG, hexB, DecChannel(r), DecChannel(g), DecChannel(b)))
        case _ => None
  }

  /** A channel of a value is accepted when it is two hexadecimal digits or a
      sign followed by one. */
  predicate ChannelAccepted(c: string) {
    |c| == 2 && (IsHexDigit(c[0]) || c[0] == '+' || c[0] == '-') && IsHexDigit(c[1])
  }

  /** `SplitChannels` fails exactly when the value is shorter than six
      characters or one of its three slices is not accepted. */
  lemma SplitChannelsSucceedsIff(v: string)
    ensures SplitChannels(v).Some? <==>
      |v| >= 6 && ChannelAccepted(v[0..2]) && ChannelAccepted(v[2..4]) && ChannelAccepted(v[4..6])
  {
  }

  /** Only the first six characters matter: a longer value yields the same
      channels as its six-character prefix. */
  lemma SplitChannelsUsesPrefix(v: string)
    requires |v| >= 6
    ensures SplitChannels(v) == SplitChannels(v[..6])
  {
    assert v[..6][0..2] == v[0..2] && v[..6][2..4] == v[2..4] && v[..6][4..6] == v[4..6];
  }

  /** Every six-hex-digit value is accepted. */
  lemma SixHexDigitsAccepted(v: string)
    requires |v| >= 6 && forall i :: 0 <= i < 6 ==> IsHexDigit(v[i])
    ensures SplitChannels(v).Some?
  {
    SplitChannelsSucceedsIff(v);
    assert v[0..2][0] == v[0] && v[0..2][1] == v[1];
    assert v[2..4][0] == v[2] && v[2..4][1] == v[3];
    assert v[4..6][0] == v[4] && v[4..6][1] == v[5];
  }

  /** The decimal quirk: a decimal channel is 1 exactly when its hex channel
      is "ff" in either case, and 0 otherwise. */
  lemma DecOneIffFF(v: string)
    requires SplitChannels(v).Some?
    ensures var ch := SplitChannels(v).value;
      && (ch.decR == 1 <==> Lower(ch.hexR) == "ff")
      && (ch.decG == 1 <==> Lower(ch.hexG) == "ff")
      && (ch.decB == 1 <==> Lower(ch.hexB) == "ff")
  {
    var ch := SplitChannels(v).value;
    ChannelFlag(ch.hexR);
    ChannelFlag(ch.hexG);
    ChannelFlag(ch.hexB);
  }

  lemma ChannelFlag(c: string)
    requires |c| == 2 && ParseChannel(c).Some?
    ensures DecChannel(ParseChannel(c).value) == 1 <==> Lower(c) == "ff"
  {
    var n := ParseChannel(c).value;
    DecChannelIsFlag(n);
    if Lower(c) == "ff" {
      assert LowerChar(c[0]) == 'f' && LowerChar(c[1]) == 'f';
      assert n == 255;
    }
    if n == 255 {
      HexByteOfParse(c);
      assert HexByte(255) == "ff";
    }
  }

  /** Example: "FF0000" has decimal channels 1, 0, 0. */
  lemma RedDecimals()
    ensures SplitChannels("FF0000") == Some(Channels("FF", "00", "00", 1, 0, 0))
  {
    assert "FF0000"[0..2] == "FF" && "FF0000"[2..4] == "00" && "FF0000"[4..6] == "00";
  }

  /** Example of the sign quirk: "+f-f+0" is accepted, each channel reading as
      a small signed number, and every decimal channel is 0. */
  lemma SignedChannelsAccepted()
    ensures SplitChannels("+f-f+0") == Some(Channels("+f", "-f", "+0", 0, 0, 0))
  {
    assert "+f-f+0"[0..2] == "+f" && "+f-f+0"[2..4] == "-f" && "+f-f+0"[4..6] == "+0";
  }
}
