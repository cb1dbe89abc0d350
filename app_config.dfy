/** The event strings the firmware sends (namespace Evt of AppConfig.h): fixed
    strings chosen by encoder, direction and button, and two strings formatted
    into a caller's buffer with snprintf. */
module Evt {
  import opened Optional

  /** The widths the source passes its arguments in. */
  newtype byte = x: int | 0 <= x < 256
  newtype int16 = x: int | -32768 <= x < 32768

  const Enc1Plus: string := "EVT:TEMP_MAIN:+1"
  const Enc1Minus: string := "EVT:TEMP_MAIN:-1"
  const Enc2Plus: string := "EVT:TEMP_PASS:+1"
  const Enc2Minus: string := "EVT:TEMP_PASS:-1"

  const Enc1Click: string := "EVT:CLIMATE_SW"
  const Enc1Long: string := "EVT:DUAL_SW"
  const Enc2Click: string := "EVT:REAR_DEFROST"
  const Enc2Long: string := "EVT:ELECTRIC_DEFROST"

  /** Number of buttons (BtnCfg::BTN_COUNT). */
  const ButtonCount: nat := 16

  /** The click event of each button; buttons 1 and 2 are the encoders' own
      and send nothing from this table. */
  const BtnClick: seq<string> := [
    "EVT:BTN:C0:CLICK",
    "",
    "",
    "EVT:FAN:+1",
    "EVT:FAN:-1",
    "EVT:CLIMATE_BODY",
    "EVT:CLIMATE_LEGS",
    "EVT:CLIMATE_WINDOWS",
    "EVT:THUNK",
    "EVT:DRIVER_HEAT",
    "EVT:DRIVER_FAN",
    "EVT:WHEEL_HEAT",
    "EVT:PASS_HEAT",
    "EVT:PASS_FAN",
    "EVT:BTN:C14:CLICK",
    "EVT:BTN:C15:CLICK"
  ]

  const BtnUnknown: string := "EVT:BTN:UNKNOWN:CLICK"

  /** The table has one entry per button; exactly entries 1 and 2 are empty,
      and every other entry is a distinct event. */
  lemma BtnClickTable()
    ensures |BtnClick| == ButtonCount
    ensures forall i :: 0 <= i < |BtnClick| ==> (BtnClick[i] == [] <==> i == 1 || i == 2)
    ensures forall i :: 0 <= i < |BtnClick| && BtnClick[i] != [] ==> BtnClick[i][..4] == "EVT:"
    ensures forall i, j :: 0 <= i < j < |BtnClick| && BtnClick[i] != [] ==> BtnClick[i] != BtnClick[j]
  {
  }

  /** One encoder step: encoder 1 adjusts the driver's temperature, any other
      encoder the passenger's; a positive step raises it and any other step,
      zero included, lowers it. */
  function EncStep(enc: byte, delta: int): (r: string)
    ensures |r| == 16 && r[..4] == "EVT:"
    ensures r[..14] == "EVT:TEMP_MAIN:" <==> enc == 1
    ensures r[..14] == "EVT:TEMP_PASS:" <==> enc != 1
    ensures r[14..] == "+1" <==> delta > 0
    ensures r[14..] == "-1" <==> delta <= 0
  {
    if enc == 1 then (if delta > 0 then Enc1Plus else Enc1Minus)
    else
      var r := if delta > 0 then Enc2Plus else Enc2Minus;
      assert r[..14][9] != "EVT:TEMP_MAIN:"[9];
      r
  }

  /** A button index past the table gives the unknown-button event. */
  function BtnClickByIdx(idx: byte): (r: string)
    ensures idx as int >= ButtonCount ==> r == BtnUnknown
    ensures idx as int < ButtonCount ==> r == BtnClick[idx]
    ensures r == BtnUnknown <==> idx as int >= ButtonCount
    ensures r == [] <==> idx == 1 || idx == 2
  {
    BtnClickTable();
    if idx as int >= ButtonCount then BtnUnknown else BtnClick[idx]
  }

  /** An encoder's push: encoder 1 switches the climate (click) or dual zone
      (long press); any other encoder the rear (click) or electric (long press)
      defrost. */
  function EncKey(enc: byte, isLong: bool): (r: string)
    ensures r in {Enc1Click, Enc1Long, Enc2Click, Enc2Long}
    ensures r == Enc1Long || r == Enc2Long <==> isLong
    ensures r == Enc1Click || r == Enc1Long <==> enc == 1
  {
    if enc == 1 then (if isLong then Enc1Long else Enc1Click)
    else (if isLong then Enc2Long else Enc2Click)
  }

  // ----- snprintf -----

  /** What snprintf(out, n, ...) leaves in the buffer: nothing when n is 0,
      otherwise the formatted text cut to n - 1 characters (the last slot
      holds the terminator). */
  function Truncate(full: string, n: nat): (r: Option<string>)
    ensures r.None? <==> n == 0
    ensures r.Some? ==> r.value <= full && |r.value| <= n - 1
    ensures r.Some? && |full| < n ==> r.value == full
    ensures r.Some? && |full| >= n ==> |r.value| == n - 1
  {
    if n == 0 then None
    else if |full| < n then Some(full)
    else Some(full[..n - 1])
  }

  // ----- %d -----

  predicate IsDigit(c: char) { '0' <= c <= '9' }

  predicate AllDigits(s: string) { forall i :: 0 <= i < |s| ==> IsDigit(s[i]) }

  function DigitChar(d: nat): (c: char)
    requires d < 10
    ensures IsDigit(c)
  {
    (48 + d) as char
  }

  function DigitValue(c: char): nat
  {
    if IsDigit(c) then (c as int - 48) as nat else 0
  }

  /** The decimal digits of n, most significant first, without leading zeros. */
  function NatDigits(n: nat): (s: string)
    decreases n
  {
    if n < 10 then [DigitChar(n)] else NatDigits(n / 10) + [DigitChar(n % 10)]
  }

  /** The value of a string of decimal digits. */
  function DigitsValue(s: string): nat
    decreases |s|
  {
    if s == [] then 0 else 10 * DigitsValue(s[..|s| - 1]) + DigitValue(s[|s| - 1])
  }

  /** %d: a minus sign for a negative value, then the digits of its magnitude. */
  function Decimal(x: int): string
  {
    if x < 0 then "-" + NatDigits(-x) else NatDigits(x)
  }

  /** Reads back what %d writes; anything else is refused. */
  function ParseDecimal(s: string): Option<int>
  {
    if s == [] then None
    else if s[0] == '-' then
      (if |s| > 1 && AllDigits(s[1..]) then Some(-(DigitsValue(s[1..]) as int)) else None)
    else if AllDigits(s) then Some(DigitsValue(s) as int)
    else None
  }

  /** The digits of n are non-empty decimal digits, start with a non-zero
      digit unless n is 0, and read back as n. */
  lemma {:induction false} NatDigitsRoundTrip(n: nat)
    ensures var s := NatDigits(n);
      && s != [] && AllDigits(s) && DigitsValue(s) == n
      && (s[0] == '0' <==> n == 0)
    decreases n
  {
    if n >= 10 {
      var s := NatDigits(n);
      NatDigitsRoundTrip(n / 10);
      assert s[..|s| - 1] == NatDigits(n / 10);
      assert s[0] == NatDigits(n / 10)[0];
    }
  }

  /** Writing a number with %d and reading it back gives the number. */
  lemma DecimalRoundTrip(x: int)
    ensures ParseDecimal(Decimal(x)) == Some(x)
  {
    var s := Decimal(x);
    if x < 0 {
      var d := NatDigits(-x);
      NatDigitsRoundTrip(-x);
      assert s == "-" + d;
      assert s[0] == '-' && s[1..] == d;
    } else {
      NatDigitsRoundTrip(x);
      assert IsDigit(s[0]);
    }
  }

  function Pow10(k: nat): nat
  {
    if k == 0 then 1 else 10 * Pow10(k - 1)
  }

  /** A number below 10^k has at most k digits. */
  lemma {:induction false} NatDigitsWithin(n: nat, k: nat)
    requires k >= 1 && n < Pow10(k)
    ensures |NatDigits(n)| <= k
    decreases k
  {
    if n >= 10 {
      assert Pow10(1) == 10;
      if k == 1 {
        assert false;
      }
      NatDigitsWithin(n / 10, k - 1);
    }
  }

  /** A 16-bit value takes at most six characters: a sign and five digits. */
  lemma Int16DecimalLength(x: int16)
    ensures |Decimal(x as int)| <= 6
  {
    assert Pow10(5) == 100000;
    if x < 0 {
      NatDigitsWithin(-(x as int), 5);
    } else {
      NatDigitsWithin(x as int, 5);
    }
  }

  // ----- touchXY -----

  const TouchPrefix: string := "EVT:TOUCH:X="

  /** The untruncated text of touchXY. */
  function TouchText(x: int16, y: int16): string
  {
    TouchPrefix + Decimal(x as int) + ",Y=" + Decimal(y as int)
  }

  /** touchXY(out, n, x, y): the touch coordinates as "EVT:TOUCH:X=<x>,Y=<y>",
      cut to the buffer. */
  function TouchXY(n: nat, x: int16, y: int16): (r: Option<string>)
    ensures r.None? <==> n == 0
    ensures r.Some? ==> r.value <= TouchText(x, y) && |r.value| < n
    ensures r.Some? ==> |r.value| == if |TouchText(x, y)| < n then |TouchText(x, y)| else n - 1
    ensures n >= 28 ==> r == Some(TouchText(x, y))
  {
    Int16DecimalLength(x);
    Int16DecimalLength(y);
    Truncate(TouchText(x, y), n)
  }

  /** Index of the first comma of s, or |s| when there is none. */
  function FirstComma(s: string): (i: nat)
    ensures i <= |s|
    decreases |s|
  {
    if s == [] then 0 else if s[0] == ',' then 0 else 1 + FirstComma(s[1..])
  }

  /** A touch event read back into its coordinates. */
  function ParseTouch(s: string): Option<(int, int)>
  {
    if !(TouchPrefix <= s) then None
    else
      var rest := s[|TouchPrefix|..];
      var i := FirstComma(rest);
      var tail := rest[i..];
      if !(",Y=" <= tail) then None
      else match (ParseDecimal(rest[..i]), ParseDecimal(tail[3..]))
        case (Some(a), Some(b)) => Some((a, b))
        case _ => None
  }

  /** The first comma of a + b is the one that starts b when a has none. */
  lemma {:induction false} FirstCommaAfter(a: string, b: string)
    requires forall i :: 0 <= i < |a| ==> a[i] != ','
    requires b != [] && b[0] == ','
    ensures FirstComma(a + b) == |a|
    decreases |a|
  {
    if a != [] {
      assert (a + b)[1..] == a[1..] + b;
      FirstCommaAfter(a[1..], b);
    }
  }

  /** %d writes no comma. */
  lemma DecimalHasNoComma(v: int)
    ensures forall i :: 0 <= i < |Decimal(v)| ==> Decimal(v)[i] != ','
  {
    if v < 0 { NatDigitsRoundTrip(-v); } else { NatDigitsRoundTrip(v); }
  }

  /** The touch text splits at its first comma into the two numbers. */
  lemma TouchSplit(dx: string, dy: string)
    requires forall i :: 0 <= i < |dx| ==> dx[i] != ','
    ensures var rest := (TouchPrefix + dx + ",Y=" + dy)[|TouchPrefix|..];
      && TouchPrefix <= TouchPrefix + dx + ",Y=" + dy
      && FirstComma(rest) == |dx| && rest[..|dx|] == dx
      && ",Y=" <= rest[|dx|..] && rest[|dx|..][3..] == dy
  {
    var rest := dx + ",Y=" + dy;
    assert (TouchPrefix + dx + ",Y=" + dy)[|TouchPrefix|..] == rest;
    assert rest == dx + (",Y=" + dy);
    FirstCommaAfter(dx, ",Y=" + dy);
    assert rest[|dx|..] == ",Y=" + dy;
  }

  /** A touch event that was not cut reads back as the coordinates it was
      made from. */
  lemma TouchRoundTrip(x: int16, y: int16)
    ensures ParseTouch(TouchText(x, y)) == Some((x as int, y as int))
  {
    DecimalHasNoComma(x as int);
    TouchSplit(Decimal(x as int), Decimal(y as int));
    DecimalRoundTrip(x as int);
    DecimalRoundTrip(y as int);
  }

  // ----- oledAddr -----

  /** %X of one hexadecimal digit: upper case. */
  function HexDigit(d: nat): (c: char)
    requires d < 16
    ensures IsDigit(c) || 'A' <= c <= 'F'
  {
    if d < 10 then DigitChar(d) else (55 + d) as char
  }

  function HexValue(c: char): nat
  {
    if IsDigit(c) then DigitValue(c)
    else if 'A' <= c <= 'F' then (c as int - 55) as nat
    else 0
  }

  /** %02X of a byte: always two digits. */
  function Hex2(b: byte): (s: string)
    ensures |s| == 2 && HexValue(s[0]) * 16 + HexValue(s[1]) == b as int
    ensures forall i :: 0 <= i < 2 ==> IsDigit(s[i]) || 'A' <= s[i] <= 'F'
  {
    [HexDigit(b as int / 16), HexDigit(b as int % 16)]
  }

  const OledPrefix: string := "EVT:OLED:0x"

  /** The untruncated text of oledAddr. */
  function OledText(addr: byte): string
  {
    OledPrefix + Hex2(addr)
  }

  /** oledAddr(out, n, addr): the display's bus address as "EVT:OLED:0x"
      and two upper-case hexadecimal digits, cut to the buffer. */
  function OledAddr(n: nat, addr: byte): (r: Option<string>)
    ensures r.None? <==> n == 0
    ensures r.Some? ==> r.value <= OledText(addr) && |r.value| < n
    ensures r.Some? ==> |r.value| == if |OledText(addr)| < n then |OledText(addr)| else n - 1
    ensures n >= 14 ==> r == Some(OledText(addr))
  {
    Truncate(OledText(addr), n)
  }

  /** An address event read back into the address. */
  function ParseOled(s: string): Option<byte>
  {
    if |s| == |OledPrefix| + 2 && s[..|OledPrefix|] == OledPrefix then
      var v := HexValue(s[|OledPrefix|]) * 16 + HexValue(s[|OledPrefix| + 1]);
      if v < 256 then Some(v as byte) else None
    else None
  }

  /** Distinct addresses give distinct events, and every event reads back as
      its address. */
  lemma OledRoundTrip(addr: byte)
    ensures ParseOled(OledText(addr)) == Some(addr)
  {
    var s := OledText(addr);
    assert s[..|OledPrefix|] == OledPrefix;
    assert s[|OledPrefix|..] == Hex2(addr);
  }
}

/** The two text bands the firmware draws in (namespace TftTextCfg of
    AppConfig.h): a status band at the top of the round display and a band
    for coordinates and hints at the bottom. */
module TftTextCfg {
  import opened Geometry
  import opened CircleTextConfig

  /** The status band: rows 6 to 52 of the 240x240 circle. */
  function Status(): (c: Config)
    ensures BandInsideCircle(c) && c.bottomY < c.cy
  {
    Config(cx := 120, cy := 120, r := 118, topY := 6, bottomY := 52,
           margin := 8, lineGap := 2, textSize := 2, color := 0xFFFF)
  }

  /** The bottom band: rows 188 to 236. */
  function Bottom(): (c: Config)
    ensures BandInsideCircle(c) && c.cy < c.topY
  {
    Config(cx := 120, cy := 120, r := 118, topY := 188, bottomY := 236,
           margin := 8, lineGap := 2, textSize := 2, color := 0xFFFF)
  }

  /** The presets differ only in their bands, which do not overlap. */
  lemma PresetsShareCircle()
    ensures Status().(topY := 0, bottomY := 0) == Bottom().(topY := 0, bottomY := 0)
    ensures Status().bottomY < Bottom().topY
  {
  }

  /** Every row of either band keeps a usable span: the status band stays
      within 114 rows of the centre and the bottom band within 116. */
  lemma PresetsUsable()
    ensures BandUsable(Status())
    ensures BandUsable(Bottom())
  {
    BandUsableWithin(Status(), 114);
    BandUsableWithin(Bottom(), 116);
  }
}
