/**
  Register layout of the DS1307 real-time clock and the binary-coded-decimal
  (BCD) arithmetic its AVR driver performs on register bytes.

  A register byte is the driver's `u08`, modelled as `bv8`. The driver's
  `uint2bcd` computes in the AVR's 16-bit `unsigned int`, modelled as `bv16`,
  and its result is truncated when it is stored into a `u08`. The getters
  compute `high * 10 + low` in `int` and return it as a `u08`; `bv8`
  arithmetic, which wraps modulo 256, is that computation followed by that
  truncation (and `Decode` proves that nothing is lost).
*/
module Ds1307Codec {

  /** The driver's `u08`. */
  type Byte = bv8

  /** The AVR's 16-bit `unsigned int`. */
  type Word = bv16

  /** Bus address of the device. */
  const BaseAddress: Byte := 0xD0

  /** Register addresses. */
  const SecondsAddr: Byte := 0x00
  const MinutesAddr: Byte := 0x01
  const HoursAddr: Byte := 0x02
  const DayAddr: Byte := 0x03
  const DateAddr: Byte := 0x04
  const MonthAddr: Byte := 0x05
  const YearAddr: Byte := 0x06
  const ControlAddr: Byte := 0x07

  /** Number of clock registers in the modelled register map (0x00 to 0x07). */
  const RegisterCount := 8

  /** Clock-halt bit, bit 7 of the seconds register: 1 stops the oscillator. */
  const CH: Byte := 0x80

  /** 12/24-hour bit, bit 6 of the hours register: 1 selects 24-hour mode. */
  const HR: Byte := 0x40

  /** The hour mode passed to the driver's initialisation. */
  datatype HourMode = Mode12HR | Mode24HR

  /** A byte whose two nibbles are both decimal digits. */
  predicate IsBcd(b: Byte) {
    b >> 4 <= 9 && b & 0x0F <= 9
  }

  /** Assignment of an `unsigned int` to a `u08`: keeps the low eight bits. */
  function ToByte(w: Word): (b: Byte)
    ensures w <= 0xFF ==> b as Word == w
  {
    (w & 0xFF) as Byte
  }

  /**
    `uint2bcd`: the tens count goes above bit 4, the units digit into the low
    nibble, so for any two-digit value the result is the byte whose nibbles
    are its decimal digits.
  */
  function Uint2Bcd(ival: Word): (r: Word)
    ensures ival / 10 < 0x1000 ==> r >> 4 == ival / 10 && r & 0x0F == ival % 10
    ensures ival <= 99 ==> r <= 0x99 && IsBcd(ToByte(r))
  {
    ((ival / 10) << 4) | (ival % 10)
  }

  /**
    The nibble decode every getter ends with: high nibble times ten plus low
    nibble. The `int` computation of the source never exceeds 165, so its
    truncation to a `u08` loses nothing; on a BCD byte the result is a
    two-digit number whose encoding is that byte again.
  */
  function Decode(b: Byte): (r: Byte)
    ensures r <= 165
    ensures r as int == (b >> 4) as int * 10 + (b & 0x0F) as int
    ensures IsBcd(b) ==> r <= 99 && ToByte(Uint2Bcd(r as Word)) == b
  {
    (b >> 4) * 10 + (b & 0x0F)
  }

  /** The decode of `ds1307_seconds`: the CH bit is masked first. */
  function SecondsOf(b: Byte): (r: Byte)
    ensures r <= 85
  {
    Decode(b & !CH)
  }

  /**
    The decode of `ds1307_hours`: with HR set (24-hour mode) bits 7 and 6 are
    masked, with HR clear (12-hour mode) bits 7, 6 and 5 (the AM/PM bit).
  */
  function HoursOf(b: Byte): (r: Byte)
    ensures b & HR != 0 ==> r <= 45
    ensures b & HR == 0 ==> r <= 25
  {
    if b & HR != 0 then Decode(b & !0xC0) else Decode(b & !0xE0)
  }

  /** The decode of `ds1307_date`: bits 7 and 6 are masked. */
  function DateOf(b: Byte): (r: Byte)
    ensures r <= 45
  {
    Decode(b & !0xC0)
  }

  /** The byte `ds1307_set_seconds` stores: BCD with the CH bit cleared. */
  function SecondsByte(seconds: Byte): (b: Byte)
    ensures b & CH == 0
  {
    ToByte(Uint2Bcd(seconds as Word)) & !CH
  }

  /** The byte `ds1307_set_minutes` stores: BCD with bit 7 cleared. */
  function MinutesByte(minutes: Byte): (b: Byte)
    ensures b & 0x80 == 0
  {
    ToByte(Uint2Bcd(minutes as Word)) & !0x80
  }

  /**
    The byte `ds1307_set_hours` stores, as written: BCD with bit 7 cleared and
    the HR bit copied from bit 6 of the decimal argument itself.
  */
  function HoursByte(hours: Byte): (b: Byte)
    ensures b & 0x80 == 0
    ensures b & HR == hours & HR
    ensures b & 0x3F == ToByte(Uint2Bcd(hours as Word)) & 0x3F
  {
    var bcd := ToByte(Uint2Bcd(hours as Word)) & !0x80;
    if hours & HR != 0 then bcd | HR else bcd & !HR
  }

  /** The byte `ds1307_set_year` stores: BCD truncated to eight bits, unmasked. */
  function YearByte(year: Byte): (b: Byte)
    ensures year <= 99 ==> IsBcd(b) && b as Word == Uint2Bcd(year as Word)
  {
    ToByte(Uint2Bcd(year as Word))
  }

  /** The seconds register after `ds1307_init`: only CH is cleared. */
  function StartOscillator(b: Byte): (r: Byte)
    ensures r & CH == 0
    ensures r & !CH == b & !CH
  {
    b & !CH
  }

  /** The hours register after `ds1307_init`: only HR changes, and it records the mode. */
  function ApplyHourMode(b: Byte, mode: HourMode): (r: Byte)
    ensures r & !HR == b & !HR
    ensures (r & HR != 0) <==> mode == Mode24HR
  {
    match mode
    case Mode12HR => b & !HR
    case Mode24HR => b | HR
  }

  /** Every two-digit value survives encoding and the full-nibble decode (month, year). */
  lemma BcdRoundTrip(v: Byte)
    requires v <= 99
    ensures Uint2Bcd(v as Word) <= 0xFF
    ensures Decode(ToByte(Uint2Bcd(v as Word))) == v
  {
  }

  /** A value set with `ds1307_set_seconds` is read back by `ds1307_seconds`. */
  lemma SecondsRoundTrip(v: Byte)
    requires v <= 59
    ensures SecondsOf(SecondsByte(v)) == v
  {
  }

  /** A value set with `ds1307_set_minutes` is read back by `ds1307_minutes`. */
  lemma MinutesRoundTrip(v: Byte)
    requires v <= 59
    ensures Decode(MinutesByte(v)) == v
  {
  }

  /** Below 40 the argument's bit 6 is clear: the stored byte is plain BCD in 12-hour mode. */
  lemma HoursByteBelowForty(h: Byte)
    requires h <= 39
    ensures HoursByte(h) == ToByte(Uint2Bcd(h as Word))
    ensures HoursByte(h) & HR == 0
  {
  }

  /** Below 20 the tens digit also leaves the AM/PM bit clear, so the hour reads back. */
  lemma HoursRoundTrip(h: Byte)
    requires h <= 19
    ensures HoursOf(HoursByte(h)) == h
  {
  }

  /** `ds1307_seconds` ignores the CH bit. */
  lemma SecondsIgnoresClockHalt(b: Byte)
    ensures SecondsOf(b | CH) == SecondsOf(b & !CH)
  {
  }

  /** `ds1307_hours` ignores bit 7 in both modes and the AM/PM bit in 12-hour mode. */
  lemma HoursIgnoresFlags(b: Byte)
    ensures HoursOf(b | 0x80) == HoursOf(b & !0x80)
    ensures b & HR == 0 ==> HoursOf(b | 0x20) == HoursOf(b & !0x20)
  {
  }

  /** `ds1307_date` ignores bits 7 and 6. */
  lemma DateIgnoresReservedBits(b: Byte)
    ensures DateOf(b | 0xC0) == DateOf(b & !0xC0)
  {
  }

  /** Every BCD date 0 to 39 reads back through `ds1307_date`. */
  lemma DateRoundTrip(d: Byte)
    requires d <= 39
    ensures DateOf(YearByte(d)) == d
  {
  }

  /** The bytes `ds1307_set_year` stores for the years 0 to 99 are exactly the BCD bytes. */
  lemma YearBytesAreBcd(b: Byte)
    ensures IsBcd(b) <==> exists y: Byte :: y <= 99 && YearByte(y) == b
  {
    if IsBcd(b) {
      // the witness is the decode of b, which re-encodes to b by Decode's contract
      assert YearByte(Decode(b)) == b;
    }
  }

  /**
    The bytes `ds1307_set_seconds` stores for 0 to 59 are exactly the BCD bytes
    with a tens digit of at most 5 (which leaves CH clear).
  */
  lemma SecondsBytesAreBcd(b: Byte)
    ensures (IsBcd(b) && b >> 4 <= 5) <==> exists v: Byte :: v <= 59 && SecondsByte(v) == b
  {
    if IsBcd(b) && b >> 4 <= 5 {
      assert YearByte(Decode(b)) == b;
      assert SecondsByte(Decode(b)) == b;
    }
  }

  /**
    Worked cases: seconds 45 is stored as 0x45 and read back, year 99 as 0x99,
    and the out-of-range minutes value 61 is stored as 0x61 without any check.
  */
  lemma EncodingExamples()
    ensures SecondsByte(45) == 0x45 && SecondsOf(0x45) == 45
    ensures YearByte(99) == 0x99 && Decode(0x99) == 99
    ensures MinutesByte(61) == 0x61 && Decode(0x61) == 61
  {
  }

  /**
    `ds1307_set_hours` as written, on a device in 24-hour mode: the hour 23
    has bit 6 clear, so the register is switched to 12-hour mode, its tens
    digit 2 becomes the PM bit, and `ds1307_hours` then reads 3.
  */
  lemma SetHoursLeavesTwentyFourHourMode()
    ensures HoursByte(23) == 0x23 && HoursByte(23) & HR == 0
    ensures HoursOf(HoursByte(23)) == 3
  {
  }

  /**
    The hours byte `ds1307_set_hours` evidently means to store: the BCD hour
    with bit 7 clear and the HR bit the hours register `current` already
    holds. Every hour the decoder can represent in that mode reads back.
  */
  function HoursByteKeepingMode(hours: Byte, current: Byte): (b: Byte)
    ensures b & 0x80 == 0
    ensures b & HR == current & HR
    ensures current & HR != 0 && hours <= 39 ==> HoursOf(b) == hours
    ensures current & HR == 0 && hours <= 19 ==> HoursOf(b) == hours
  {
    var bcd := ToByte(Uint2Bcd(hours as Word)) & !0x80;
    if current & HR != 0 then bcd | HR else bcd & !HR
  }
}
