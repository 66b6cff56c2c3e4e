# DS1307 real-time-clock driver

A model of the AVR driver for the DS1307 real-time clock (`DS1307/ds1307.c`).
The driver converts between plain decimal time fields and the chip's packed
binary-coded-decimal (BCD) register bytes, and does read-modify-write on two
control bits: CH, the clock-halt bit (bit 7 of the seconds register), and HR,
the 12/24-hour bit (bit 6 of the hours register).

- `codec.dfy`, module `Ds1307Codec`: the register addresses, the bus address
  0xD0, the CH and HR masks, `uint2bcd`, and the byte arithmetic of every getter
  and setter as pure functions over `bv8` (the driver's `u08`). `uint2bcd`
  computes in `bv16`, the AVR's 16-bit `unsigned int`, and its result is
  truncated to eight bits where the driver stores it in a `u08`. The getters
  compute `high * 10 + low` in `int` and return a `u08`; `Decode` proves the
  value never exceeds 165, so that return loses nothing.
- `driver.dfy`, module `Ds1307Driver`: class `Driver` holds the device's eight
  clock registers (`regs`, an array of 8 bytes) and the driver's global staging
  buffer `device_data` (`deviceData`, an array of 2 bytes). Its methods follow
  the C functions statement by statement. Each method's `ensures` gives the new
  register map and buffer in terms of the pure functions. The lemmas about those
  functions give the round trips, the bounds and the bits each operation keeps.

The bus transport is replaced by direct access to the register array.
`WriteRegister` stages `[reg, data]` in the buffer, and the device stores the
second staged byte at the register named by the first. `ReadRegister` stages
`reg`, and the one-byte receive then overwrites `device_data[0]` with that
register's byte. `Driver.Init` clears CH by calling `StartOscillator`, which is
the driver's `seconds & ~CH` written as a function; its hour-mode branch is
written inline, as in the driver. So after any read the buffer holds `[byte read, previous
device_data[1]]`, and after any write it holds `[reg, data]`.

`ds1307_set_hours` takes only the hour and copies bit 6 of the decimal hour
into HR; the register read on line 144 is never used. `Driver.SetHours` models
the code as written; see "## Findings".

## Model

| member | source | states |
|---|---|---|
| `Ds1307Codec.ToByte` | DS1307/ds1307.c:160 | storing an `unsigned int` into a `u08` keeps the low eight bits, and keeps a value below 256 unchanged |
| `Ds1307Codec.Uint2Bcd` | DS1307/ds1307.c:42-45 | the bits above bit 3 hold `ival / 10` and the low nibble holds `ival % 10`; for 0..99 the result is at most 0x99, fits in one byte and is a BCD byte |
| `Ds1307Codec.Decode` | DS1307/ds1307.c:118-120 | the nibble decode is at most 165 and equals the exact `int` value `high * 10 + low`, so the `u08` return loses nothing; on a BCD byte it is at most 99 and re-encodes to that byte |
| `Ds1307Codec.SecondsOf` | DS1307/ds1307.c:63-73 | the seconds getter, which masks CH, never returns more than 85 |
| `Ds1307Codec.HoursOf` | DS1307/ds1307.c:84-101 | with HR set the hours getter masks bits 7-6 and returns at most 45; with HR clear it also masks bit 5 (AM/PM) and returns at most 25 |
| `Ds1307Codec.DateOf` | DS1307/ds1307.c:103-112 | the date getter masks bits 7-6 and returns at most 45 |
| `Ds1307Codec.SecondsByte` | DS1307/ds1307.c:123-129 | the byte `set_seconds` stores always has CH clear, so setting seconds never halts the oscillator |
| `Ds1307Codec.MinutesByte` | DS1307/ds1307.c:131-137 | the byte `set_minutes` stores always has bit 7 clear |
| `Ds1307Codec.HoursByte` | DS1307/ds1307.c:139-156 | the byte `set_hours` stores has bit 7 clear, its HR bit equals bit 6 of the decimal argument, and its low six bits are those of the BCD encoding |
| `Ds1307Codec.YearByte` | DS1307/ds1307.c:158-162 | the byte `set_year` stores is `uint2bcd(year)` truncated to eight bits with no masking; for 0..99 it is that BCD byte exactly |
| `Ds1307Codec.StartOscillator` | DS1307/ds1307.c:49-52 | the init step on the seconds register clears CH and keeps every other bit |
| `Ds1307Codec.ApplyHourMode` | DS1307/ds1307.c:54-60 | the init step on the hours register keeps every bit except HR, and HR is set exactly for 24-hour mode |
| `Ds1307Codec.BcdRoundTrip` | DS1307/ds1307.c:42-45 | every value 0..99 encodes into one byte, and the full-nibble decode of the month getter returns it |
| `Ds1307Codec.SecondsRoundTrip` | DS1307/ds1307.c:123-129 | for 0..59 the seconds getter returns the value the seconds setter stored |
| `Ds1307Codec.MinutesRoundTrip` | DS1307/ds1307.c:131-137 | for 0..59 the minutes getter returns the value the minutes setter stored |
| `Ds1307Codec.HoursByteBelowForty` | DS1307/ds1307.c:145-154 | for hours 0..39 the stored byte is exactly the BCD encoding with HR clear, so the device ends in 12-hour mode |
| `Ds1307Codec.HoursRoundTrip` | DS1307/ds1307.c:139-156 | for hours 0..19 the hours getter returns the value the hours setter stored |
| `Ds1307Codec.SecondsIgnoresClockHalt` | DS1307/ds1307.c:67-68 | the seconds getter gives the same value whether CH is set or clear |
| `Ds1307Codec.HoursIgnoresFlags` | DS1307/ds1307.c:88-97 | the hours getter ignores bit 7 in both modes and bit 5 (AM/PM) in 12-hour mode |
| `Ds1307Codec.DateIgnoresReservedBits` | DS1307/ds1307.c:107-108 | the date getter gives the same value whatever bits 7 and 6 hold |
| `Ds1307Codec.DateRoundTrip` | DS1307/ds1307.c:103-112 | every BCD date 0..39 (so every day 1..31) reads back through the date getter |
| `Ds1307Codec.YearBytesAreBcd` | DS1307/ds1307.c:158-162 | the bytes `set_year` stores for 0..99 are exactly the BCD bytes |
| `Ds1307Codec.SecondsBytesAreBcd` | DS1307/ds1307.c:123-129 | the bytes `set_seconds` stores for 0..59 are exactly the BCD bytes with tens digit at most 5 |
| `Ds1307Codec.EncodingExamples` | DS1307/ds1307.c:123-162 | seconds 45 is stored as 0x45 and read back as 45; year 99 is stored as 0x99; minutes 61 is stored as 0x61 without a range check |
| `Ds1307Codec.SetHoursLeavesTwentyFourHourMode` | DS1307/ds1307.c:145-154 | `set_hours(23)` stores 0x23 with HR clear, which the hours getter reads as 3 |
| `Ds1307Codec.HoursByteKeepingMode` | DS1307/ds1307.c:144-154 | corrected `set_hours` byte: it keeps the register's HR bit, and every hour 0..39 in 24-hour mode, or 0..19 in 12-hour mode, reads back |
| `Ds1307Driver.InitRegisters` | DS1307/ds1307.c:47-61 | init changes only the seconds and hours registers of the eight |
| `Ds1307Driver.InitRegistersBits` | DS1307/ds1307.c:49-60 | after init, CH is clear and the other seconds bits are kept; HR is set exactly in 24-hour mode and the other hours bits are kept |
| `Ds1307Driver.InitIdempotent` | DS1307/ds1307.c:47-61 | calling init twice with the same mode leaves the same registers as calling it once |
| `Ds1307Driver.TwentyThreeHoursReadsThree` | DS1307/ds1307.c:139-156 | after init in 24-hour mode, `set_hours(23)` leaves the device in 12-hour mode, and the hours getter reads 3 |
| `Ds1307Driver.Driver.constructor` | DS1307/ds1307.c:36 | the driver starts with the device's registers as given and a zeroed two-byte buffer |
| `Ds1307Driver.Driver.WriteRegister` | DS1307/ds1307.c:164-169 | only register `reg` changes, to `data`, and the buffer is left as `[reg, data]` |
| `Ds1307Driver.Driver.ReadRegister` | DS1307/ds1307.c:171-177 | returns register `reg`'s byte, changes no register, and leaves that byte in `device_data[0]` |
| `Ds1307Driver.Driver.Init` | DS1307/ds1307.c:47-61 | the registers become `InitRegisters` of the old registers, and the buffer holds the last write, to the hours register |
| `Ds1307Driver.Driver.Seconds` | DS1307/ds1307.c:63-73 | returns `SecondsOf` of the seconds register; no register changes |
| `Ds1307Driver.Driver.Minutes` | DS1307/ds1307.c:75-82 | returns the unmasked decode of the minutes register; no register changes |
| `Ds1307Driver.Driver.Hours` | DS1307/ds1307.c:84-101 | returns `HoursOf` of the hours register; no register changes |
| `Ds1307Driver.Driver.Date` | DS1307/ds1307.c:103-112 | returns `DateOf` of the date register; no register changes |
| `Ds1307Driver.Driver.Month` | DS1307/ds1307.c:114-121 | returns the unmasked decode of the month register; no register changes |
| `Ds1307Driver.Driver.SetSeconds` | DS1307/ds1307.c:123-129 | only the seconds register changes, to `SecondsByte(seconds)` |
| `Ds1307Driver.Driver.SetMinutes` | DS1307/ds1307.c:131-137 | only the minutes register changes, to `MinutesByte(minutes)` |
| `Ds1307Driver.Driver.SetHours` | DS1307/ds1307.c:139-156 | only the hours register changes, to `HoursByte(hours)`; the intermediate hours read affects only the buffer, which the final write overwrites |
| `Ds1307Driver.Driver.SetHoursKeepingMode` | DS1307/ds1307.c:139-156 | corrected `set_hours`: only the hours register changes, to `HoursByteKeepingMode` of the hour and the old register |
| `Ds1307Driver.Driver.SetYear` | DS1307/ds1307.c:158-162 | only the year register changes, to `YearByte(year)` |

## Findings

| source | as written | input that shows it | evidently intended | confidence | as-written member | corrected member |
|---|---|---|---|---|---|---|
| DS1307/ds1307.c:144-154 | the HR bit of the stored hours byte is copied from bit 6 of the decimal hour argument; the current hours read on line 144 is never used | device initialised in 24-hour mode, then `ds1307_set_hours(23)`: 0x23 is stored with HR clear, the device switches to 12-hour mode with the PM bit set, and `ds1307_hours()` returns 3 | keep the HR bit the hours register already holds, so that every hour 0..23 reads back in 24-hour mode | high; not executed | `Ds1307Codec.SetHoursLeavesTwentyFourHourMode` (about `Ds1307Codec.HoursByte` and `Ds1307Driver.Driver.SetHours`) | `Ds1307Codec.HoursByteKeepingMode` (used by `Ds1307Driver.Driver.SetHoursKeepingMode`) |

## Left out

- The two-wire bus transport (`i2cMasterSendNI`, `i2cMasterReceiveNI`): `i2c.h` is not part of this model. Bus transactions are direct reads and writes of the register array, and they cannot fail. The bus address 0xD0 exists only as the constant `BaseAddress`.
- `Ds1307Driver.Driver.WriteRegister`: requires `reg < 8`, because the model's register map holds only the eight clock registers. The device's RAM at 0x08-0x3F is not modelled. The driver only ever passes its own register constants 0x00-0x06.
- `Ds1307Driver.Driver.ReadRegister`: requires `reg < 8`, for the same reason.
- The device's own timekeeping: the registers do not advance between driver calls. The round trips and init's "other bits kept" hold for a stopped clock or an immediately following access; on a running clock a tick between init's read and write-back at lines 50-52 would be undone by the write.
- Concurrent calls corrupting the shared `device_data` buffer: the model is sequential.
- Calendar validity and range checks: the driver does none. Out-of-range values are silently truncated, and the model truncates the same way.
- The day-of-week (0x03) and control (0x07) registers: they exist only as constants, because the driver never reads or writes them. The driver has no getter for the year or the day of the week.
- The types from `ds1307.h`, which is not part of this model: `u08` is taken as an 8-bit unsigned byte (`bv8`), and `DS1307HourMode` as the two-valued `HourMode`. The AVR `unsigned int` is taken as 16 bits wide.
