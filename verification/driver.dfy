/**
  The DS1307 driver: the device's register map, the driver's two-byte staging
  buffer `device_data`, and the operations of the driver over them.

  The two-wire bus is abstracted away: sending the two staged bytes stores the
  second at the register named by the first, and a one-byte send followed by
  a one-byte receive places the named register's byte in `device_data[0]`.
*/
module Ds1307Driver {
  import opened Ds1307Codec

  /** The register map after `ds1307_init(mode)`. */
  function InitRegisters(regs: seq<Byte>, mode: HourMode): (r: seq<Byte>)
    requires |regs| == RegisterCount
    ensures |r| == RegisterCount
    ensures forall i :: 0 <= i < RegisterCount && i != SecondsAddr as int && i != HoursAddr as int ==> r[i] == regs[i]
  {
    regs[SecondsAddr := StartOscillator(regs[SecondsAddr])][HoursAddr := ApplyHourMode(regs[HoursAddr], mode)]
  }

  /**
    `ds1307_init` clears only CH in the seconds register and changes only HR
    in the hours register, setting it exactly in 24-hour mode.
  */
  lemma InitRegistersBits(regs: seq<Byte>, mode: HourMode)
    requires |regs| == RegisterCount
    ensures InitRegisters(regs, mode)[SecondsAddr] & CH == 0
    ensures InitRegisters(regs, mode)[SecondsAddr] & !CH == regs[SecondsAddr] & !CH
    ensures (InitRegisters(regs, mode)[HoursAddr] & HR != 0) <==> mode == Mode24HR
    ensures InitRegisters(regs, mode)[HoursAddr] & !HR == regs[HoursAddr] & !HR
  {
  }

  /**
    On a device initialised in 24-hour mode, setting the hour 23 with
    `ds1307_set_hours` as written leaves it in 12-hour mode reading 3.
  */
  lemma TwentyThreeHoursReadsThree(regs: seq<Byte>)
    requires |regs| == RegisterCount
    ensures InitRegisters(regs, Mode24HR)[HoursAddr] & HR != 0
    ensures InitRegisters(regs, Mode24HR)[HoursAddr := HoursByte(23)][HoursAddr] & HR == 0
    ensures HoursOf(InitRegisters(regs, Mode24HR)[HoursAddr := HoursByte(23)][HoursAddr]) == 3
  {
  }

  /** Initialising twice with the same mode leaves the registers as initialising once. */
  lemma InitIdempotent(regs: seq<Byte>, mode: HourMode)
    requires |regs| == RegisterCount
    ensures InitRegisters(InitRegisters(regs, mode), mode) == InitRegisters(regs, mode)
  {
  }

  class Driver {
    /** The device's clock registers, 0x00 (seconds) to 0x07 (control). */
    var regs: array<Byte>
    /** The driver's staging buffer `device_data`. */
    var deviceData: array<Byte>

    ghost predicate Valid()
      reads this
    {
      regs.Length == RegisterCount && deviceData.Length == 2 && regs != deviceData
    }

    /** A driver attached to a device whose registers hold `initial`; the buffer starts zeroed. */
    constructor (initial: seq<Byte>)
      requires |initial| == RegisterCount
      ensures Valid() && fresh(regs) && fresh(deviceData)
      ensures regs[..] == initial && deviceData[..] == [0, 0]
    {
      regs := new Byte[RegisterCount](i requires 0 <= i < RegisterCount reads {} => initial[i]);
      deviceData := new Byte[2](_ => 0);
    }

    /** `ds1307_write_register`: stages `[reg, data]` and sends both bytes. */
    method WriteRegister(reg: Byte, data: Byte)
      requires Valid() && reg as int < RegisterCount
      modifies regs, deviceData
      ensures regs[..] == old(regs[..])[reg as int := data]
      ensures deviceData[..] == [reg, data]
    {
      deviceData[0] := reg;
      deviceData[1] := data;
      regs[deviceData[0]] := deviceData[1];
    }

    /** `ds1307_read_register`: selects `reg`, then receives its byte into `device_data[0]`. */
    method ReadRegister(reg: Byte) returns (data: Byte)
      requires Valid() && reg as int < RegisterCount
      modifies deviceData
      ensures data == regs[reg]
      ensures deviceData[..] == [data, old(deviceData[1])]
    {
      deviceData[0] := reg;
      deviceData[0] := regs[deviceData[0]];
      data := deviceData[0];
    }

    /** `ds1307_init`: clears CH in the seconds register and sets HR from `mode`. */
    method Init(mode: HourMode)
      requires Valid()
      modifies regs, deviceData
      ensures regs[..] == InitRegisters(old(regs[..]), mode)
      ensures deviceData[..] == [HoursAddr, ApplyHourMode(old(regs[HoursAddr]), mode)]
    {
      var seconds := ReadRegister(SecondsAddr);
      seconds := StartOscillator(seconds);
      WriteRegister(SecondsAddr, seconds);

      var hour := ReadRegister(HoursAddr);
      if mode == Mode12HR {
        hour := hour & !HR;
      } else {
        hour := hour | HR;
      }
      WriteRegister(HoursAddr, hour);
    }

    /** `ds1307_seconds`. */
    method Seconds() returns (seconds: Byte)
      requires Valid()
      modifies deviceData
      ensures seconds == SecondsOf(regs[SecondsAddr])
      ensures deviceData[..] == [regs[SecondsAddr], old(deviceData[1])]
    {
      var b := ReadRegister(SecondsAddr);
      b := b & !CH;
      var high := b >> 4;
      var low := b & 0x0F;
      seconds := high * 10 + low;
    }

    /** `ds1307_minutes`: bit 7 is not masked. */
    method Minutes() returns (minutes: Byte)
      requires Valid()
      modifies deviceData
      ensures minutes == Decode(regs[MinutesAddr])
      ensures deviceData[..] == [regs[MinutesAddr], old(deviceData[1])]
    {
      var b := ReadRegister(MinutesAddr);
      var high := b >> 4;
      var low := b & 0x0F;
      minutes := high * 10 + low;
    }

    /** `ds1307_hours`: the mask depends on the HR bit of the register itself. */
    method Hours() returns (hours: Byte)
      requires Valid()
      modifies deviceData
      ensures hours == HoursOf(regs[HoursAddr])
      ensures deviceData[..] == [regs[HoursAddr], old(deviceData[1])]
    {
      var b := ReadRegister(HoursAddr);
      if b & HR != 0 {
        b := b & !0xC0;
      } else {
        b := b & !0xE0;
      }
      var high := b >> 4;
      var low := b & 0x0F;
      hours := high * 10 + low;
    }

    /** `ds1307_date`. */
    method Date() returns (date: Byte)
      requires Valid()
      modifies deviceData
      ensures date == DateOf(regs[DateAddr])
      ensures deviceData[..] == [regs[DateAddr], old(deviceData[1])]
    {
      var b := ReadRegister(DateAddr);
      b := b & !0xC0;
      var high := b >> 4;
      var low := b & 0x0F;
      date := high * 10 + low;
    }

    /** `ds1037_month` (so spelt in the driver): the full high nibble is the tens digit. */
    method Month() returns (month: Byte)
      requires Valid()
      modifies deviceData
      ensures month == Decode(regs[MonthAddr])
      ensures deviceData[..] == [regs[MonthAddr], old(deviceData[1])]
    {
      var b := ReadRegister(MonthAddr);
      var high := b >> 4;
      var low := b & 0x0F;
      month := high * 10 + low;
    }

    /** `ds1307_set_seconds`: writes only the seconds register. */
    method SetSeconds(seconds: Byte)
      requires Valid()
      modifies regs, deviceData
      ensures regs[..] == old(regs[..])[SecondsAddr := SecondsByte(seconds)]
      ensures deviceData[..] == [SecondsAddr, SecondsByte(seconds)]
    {
      var bcdSeconds := ToByte(Uint2Bcd(seconds as Word));
      bcdSeconds := bcdSeconds & !CH;
      WriteRegister(SecondsAddr, bcdSeconds);
    }

    /** `ds1307_set_minutes`: writes only the minutes register. */
    method SetMinutes(minutes: Byte)
      requires Valid()
      modifies regs, deviceData
      ensures regs[..] == old(regs[..])[MinutesAddr := MinutesByte(minutes)]
      ensures deviceData[..] == [MinutesAddr, MinutesByte(minutes)]
    {
      var bcdMinutes := ToByte(Uint2Bcd(minutes as Word));
      bcdMinutes := bcdMinutes & !0x80;
      WriteRegister(MinutesAddr, bcdMinutes);
    }

    /**
      `ds1307_set_hours`, as written: the current hours are read and not used,
      and the HR bit is taken from bit 6 of the decimal argument.
    */
    method SetHours(hours: Byte)
      requires Valid()
      modifies regs, deviceData
      ensures regs[..] == old(regs[..])[HoursAddr := HoursByte(hours)]
      ensures deviceData[..] == [HoursAddr, HoursByte(hours)]
    {
      var bcdHours := ToByte(Uint2Bcd(hours as Word));
      bcdHours := bcdHours & !0x80;
      var currentHours := Hours();
      if hours & HR != 0 {
        bcdHours := bcdHours | HR;
      } else {
        bcdHours := bcdHours & !HR;
      }
      WriteRegister(HoursAddr, bcdHours);
    }

    /**
      `ds1307_set_hours` corrected: the HR bit is kept from the hours
      register as it was before the write.
    */
    method SetHoursKeepingMode(hours: Byte)
      requires Valid()
      modifies regs, deviceData
      ensures regs[..] == old(regs[..])[HoursAddr := HoursByteKeepingMode(hours, old(regs[HoursAddr]))]
      ensures deviceData[..] == [HoursAddr, HoursByteKeepingMode(hours, old(regs[HoursAddr]))]
    {
      var bcdHours := ToByte(Uint2Bcd(hours as Word));
      bcdHours := bcdHours & !0x80;
      var current := ReadRegister(HoursAddr);
      if current & HR != 0 {
        bcdHours := bcdHours | HR;
      } else {
        bcdHours := bcdHours & !HR;
      }
      WriteRegister(HoursAddr, bcdHours);
    }

    /** `ds1307_set_year`: writes only the year register. */
    method SetYear(year: Byte)
      requires Valid()
      modifies regs, deviceData
      ensures regs[..] == old(regs[..])[YearAddr := YearByte(year)]
      ensures deviceData[..] == [YearAddr, YearByte(year)]
    {
      var bcdYear := ToByte(Uint2Bcd(year as Word));
      WriteRegister(YearAddr, bcdYear);
    }
  }
}
