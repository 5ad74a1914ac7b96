# MAX31856 thermocouple driver: register protocol and decoders in Dafny

This project models the register-level core of the Playing With Fusion driver for
the MAX31856 thermocouple-to-digital converter. It covers both versions that the
repository carries:

- the current class `MAX31856` (`src/PWFusion_MAX31856.cpp`, `src/PWFusion_MAX31856.h`);
- the legacy class `PWF_MAX31856` (`PlayingWithFusion_MAX31856.cpp`, `PlayingWithFusion_MAX31856.h`).

The converter is reached over SPI. Each register access is one transaction:
chip select low, an address byte, a data byte, chip select high. The address
byte carries the register number in bits 3:0 and bit 7 set for a write.
There are two parts:

- a bus: an abstract chip with sixteen 8-bit registers, plus the trace of every
  event the driver puts on the wires;
- the driver operations as methods over that bus. Each states the exact events it
  appends, what it does to the register file, and what it returns or stores.

Both drivers read the same temperature registers but decode them differently:

- **Current driver:** reads the top bit as a sign and negates the magnitude bits
  (sign and magnitude).
- **Legacy driver:** sign-extends, i.e. reads the value as two's complement.

The model states each decoder exactly. It proves that they agree when the sign bit
is clear, and gives the precise relation when it is set. It does not decide which
reading is correct.

Modules, one per file:

| file | module | what it holds |
|---|---|---|
| `optional.dfy` | `Optional` | the option type |
| `ints.dfy` | `Ints` | `int8_t`/`int16_t`/`int32_t` as newtypes; signed byte to register byte and back |
| `registers.dfy` | `Registers` | the register map; CR0, CR1 and MASK encodings of the current header |
| `legacy_registers.dfy` | `LegacyRegisters` | legacy register defines; legacy CR0/CR1 encodings |
| `fault_status.dfy` | `FaultStatus` | the eight status flags |
| `decode.dfy` | `Decode` | current cold-junction and thermocouple decoders |
| `legacy_decode.dfy` | `LegacyDecode` | legacy decoders |
| `decoder_agreement.dfy` | `DecoderAgreement` | where the two decoders agree and how they differ |
| `masked_merge.dfy` | `MaskedMerge` | the legacy read-modify-write merge |
| `bus.dfy` | `Bus` | frames, parsing a trace back into accesses, the chip |
| `driver.dfy` | `Driver` | the current class |
| `legacy_driver.dfy` | `LegacyDriver` | the legacy class |

In `Driver`, `getStatus` is the function `GetStatus`. It returns the status byte
that `Sample` stores.

## Model

| member | source | states |
|---|---|---|
| Registers.AddrBijective | src/PWFusion_MAX31856.h:50-67 | No two registers share an address. Every 4-bit address names a register, and `RegAt` inverts `Addr`. |
| Registers.AddrByte | src/PWFusion_MAX31856.h:50-67 | A register's address byte lies in 0x00..0x0F. Or-ing in 0x80 sets bit 7 and keeps the register number in the low nibble. |
| Registers.Cr0FieldsDisjoint | src/PWFusion_MAX31856.h:70-86 | The CR0 bit fields are pairwise disjoint and cover the byte. Every CR0 constant lies inside its own field. |
| Registers.Cr0 | src/PWFusion_MAX31856.cpp:120-129 | The CR0 byte `config` writes has one-shot off, cold junction enabled, 10 ms open-circuit detection and automatic fault mode. The conversion-mode bit is set iff auto mode is selected, and the filter bit is as selected. |
| Registers.Cr0RoundTrip | src/PWFusion_MAX31856.cpp:120-136 | Mode and filter can be read back from the encoded CR0. Conversely, every CR0 byte with `config`'s fixed fields encodes the selections read from it. |
| Registers.Cr1RoundTrip | src/PWFusion_MAX31856.h:88-101 | `AVG|TYPE` gives back the thermocouple type in bits 3:0 and the averaging index in bits 7:4, and keeps reserved bit 7 clear. The chip reads back both selections. |
| Registers.Cr1Injective | src/PWFusion_MAX31856.h:88-101 | Different averaging/type pairs, out of the 5 x 8 combinations, give different CR1 bytes. |
| Registers.Cr1Complete | src/PWFusion_MAX31856.cpp:138-143 | Every CR1 byte with reserved bit 7 clear, an averaging code 0..4 and a type code 0..7 is the encoding of what it reads as. |
| Registers.MaskConstants | src/PWFusion_MAX31856.h:103-109 | The six MASK constants are distinct single bits covering 0x3F. The default mask is 0x3C, which leaves OV/UV and OPEN unmasked. |
| FaultStatus.Faults | src/PWFusion_MAX31856.h:111-119 | A fault is in the decoded set exactly when its flag bit is set in the status byte. |
| FaultStatus.StatusOf | src/PWFusion_MAX31856.h:111-119 | The encoded status byte reports exactly the faults in the given set. |
| FaultStatus.CollectHas | src/PWFusion_MAX31856.h:111-119 | Or-ing the flags of a list of faults reports a fault exactly when it is in the list and in the set. |
| FaultStatus.FaultsRoundTrip | src/PWFusion_MAX31856.h:111-119 | Status byte to fault set and back, in both directions, is the identity. |
| FaultStatus.StatusExtensional | src/PWFusion_MAX31856.h:111-119 | Two status bytes that report the same faults are equal. |
| FaultStatus.FlagsPartitionByte | src/PWFusion_MAX31856.h:111-119 | The eight flags are distinct single bits whose union is 0xFF. |
| FaultStatus.ToggleIndependent | src/PWFusion_MAX31856.h:111-119 | Flipping one flag bit changes that fault's test and no other fault's test. |
| FaultStatus.StatusVectors | src/PWFusion_MAX31856.h:111-119 | Status 0x01 reports only an open circuit, 0x08 only a thermocouple high fault, and 0x00 nothing. |
| Ints.ByteOfNat | src/PWFusion_MAX31856.cpp:252 | The byte built for an unsigned value 0..255 has that value. |
| Ints.Int8OfByteOfInt8 | src/PWFusion_MAX31856.cpp:252 | A signed byte stored as `(uint8_t)` and read back as `int8_t` is unchanged. |
| Ints.ByteOfInt8OfByte | src/PWFusion_MAX31856.cpp:252 | Every register byte is the stored form of the signed byte it reads as. |
| Decode.ColdJunction | src/PWFusion_MAX31856.cpp:190-205 | The cold-junction count is -m when MSB bit 7 is set and m otherwise, where m = (MSB:LSB without bit 15) / 4. The result is within +-8191. |
| Decode.ColdJunctionValue | src/PWFusion_MAX31856.cpp:197-205 | The driver's shift, mask and conditional negation compute the sign-magnitude value of the bytes. |
| Decode.Thermocouple | src/PWFusion_MAX31856.cpp:207-225 | The thermocouple count is -m when b2 bit 7 is set and m otherwise, where m = (b2:b1:b0 without bit 23) / 32. The result is within +-262143. |
| Decode.ThermocoupleValue | src/PWFusion_MAX31856.cpp:215-225 | The 32-bit shift by 13, the 0x40000 test and the 0x3FFFF mask compute the sign-magnitude value of the bytes. |
| Decode.ColdJunctionIgnoresPadding | src/PWFusion_MAX31856.cpp:197 | LSB bits 1:0 do not affect the cold-junction count. |
| Decode.ThermocoupleIgnoresPadding | src/PWFusion_MAX31856.cpp:208-215 | Bits 4:0 of the lowest thermocouple byte do not affect the count. |
| Decode.NegativeZeroCollapses | src/PWFusion_MAX31856.cpp:198-204 | A set sign bit with a zero magnitude decodes to 0, like all-zero bytes, so the decoders are not injective. |
| Decode.DecodeVectors | src/PWFusion_MAX31856.cpp:190-225 | CJ (0x19,0x00) gives 1600, CJ (0xE7,0x00) gives -6592, and TC (0x01,0x90,0x00) gives 3200. |
| LegacyDecode.LegacyColdJunction | PlayingWithFusion_MAX31856.cpp:163-169 | The legacy cold-junction count is floor(signed16(MSB:LSB) / 4), in [-8192, 8191]. |
| LegacyDecode.LegacyColdJunctionValue | PlayingWithFusion_MAX31856.cpp:167-168 | Filling bits 15:13 with ones when bit 15 is set, then reading the result as `int16_t`, is an arithmetic shift right by 2 of the signed pair. |
| LegacyDecode.Extend13Value | PlayingWithFusion_MAX31856.cpp:167 | Or-ing 0xE000 onto a 13-bit magnitude subtracts 2^13 from its `int16_t` value. |
| LegacyDecode.LegacyThermocouple | PlayingWithFusion_MAX31856.cpp:171-179 | The legacy thermocouple count is floor(signed24(b2:b1:b0) / 32), in [-262144, 262143]. |
| LegacyDecode.LegacyThermocoupleValue | PlayingWithFusion_MAX31856.cpp:177-178 | Or-ing 0xFFFC0000 when bit 23 is set, then reading the result as a 32-bit signed value, is an arithmetic shift right by 5 of the signed triple. |
| LegacyDecode.Extend18Value | PlayingWithFusion_MAX31856.cpp:177 | Or-ing 0xFFFC0000 onto an 18-bit magnitude subtracts 2^18 from its 32-bit signed value. |
| LegacyDecode.LegacyDecodeVectors | PlayingWithFusion_MAX31856.cpp:163-179 | CJ (0x19,0x00) gives 1600, (0xE7,0x00) gives -1600 and (0x80,0x00) gives -8192. TC (0x01,0x90,0x00) gives 3200 and (0xFF,0xFF,0xFF) gives -1. |
| DecoderAgreement.ColdJunctionAgreement | PlayingWithFusion_MAX31856.cpp:164-168 | With MSB bit 7 clear, the legacy and current cold-junction counts are equal. With it set, legacy = -current - 8192. |
| DecoderAgreement.ColdJunctionAgreeIff | PlayingWithFusion_MAX31856.cpp:164-168 | The two cold-junction decoders agree exactly when MSB bit 7 is clear or the current count is -4096. |
| DecoderAgreement.ThermocoupleAgreement | PlayingWithFusion_MAX31856.cpp:172-178 | With b2 bit 7 clear, the legacy and current thermocouple counts are equal. With it set, legacy = -current - 262144. |
| DecoderAgreement.ThermocoupleAgreeIff | PlayingWithFusion_MAX31856.cpp:172-178 | The two thermocouple decoders agree exactly when b2 bit 7 is clear or the current count is -131072. |
| DecoderAgreement.DivergenceExample | PlayingWithFusion_MAX31856.cpp:167 | CJ (0xE7,0x00) gives -1600 in the legacy decoder and -6592 in the current one. TC (0xFF,0xFF,0xFF) gives -1 and -262143. |
| MaskedMerge.Merge | PlayingWithFusion_MAX31856.cpp:81 | The merged byte equals the data inside the mask and the previous value outside it. |
| MaskedMerge.MergeUnique | PlayingWithFusion_MAX31856.cpp:81 | Any byte that equals the data inside the mask and the previous value outside it is the merge. |
| MaskedMerge.MergeExtremes | PlayingWithFusion_MAX31856.cpp:78-81 | Mask 0xFF gives the data, and mask 0x00 leaves the register unchanged. |
| MaskedMerge.MergeIdempotent | PlayingWithFusion_MAX31856.cpp:81 | Repeating a masked write changes nothing further. |
| MaskedMerge.MergeLastWins | PlayingWithFusion_MAX31856.cpp:81 | Of two masked writes with the same mask, the second one determines the result. |
| MaskedMerge.MergeSetBits | PlayingWithFusion_MAX31856.cpp:185 | A masked write whose mask and data are the same bits is an or of those bits. |
| Bus.AddressByte | src/PWFusion_MAX31856.cpp:88-103 | The address byte carries the register in bits 3:0 and has bits 6:4 clear. Bit 7 is set iff the access is a write. |
| Bus.Frames | src/PWFusion_MAX31856.cpp:85-107 | n accesses produce 4n events. |
| Bus.FramesAppend | src/PWFusion_MAX31856.cpp:85-107 | The frames of two lists of accesses, one after the other, are the frames of the concatenated list. |
| Bus.ParseFrames | src/PWFusion_MAX31856.cpp:85-107 | Parsing the frames of any accesses gives back exactly those accesses. |
| Bus.ParseSound | src/PWFusion_MAX31856.cpp:85-107 | Any trace that parses is the frames of the accesses it parses to. |
| Bus.FramesBalanced | src/PWFusion_MAX31856.cpp:86-91 | The frames of n accesses hold exactly n chip-select-low and n chip-select-high events. |
| Bus.RunAppend | src/PWFusion_MAX31856.cpp:85-107 | The chip runs two traces one after the other as it runs their concatenation. |
| Bus.RunFrame | src/PWFusion_MAX31856.cpp:85-107 | One frame performs its access, shifts back the register for a read, and leaves the chip idle, whatever state the chip started in. |
| Bus.RunFrames | src/PWFusion_MAX31856.cpp:85-107 | A list of frames performs its accesses in order and returns the register values read. |
| Driver.ReadByte | src/PWFusion_MAX31856.cpp:81-95 | `readByte` appends one frame: a read of the register with bit 7 clear. It returns the register's value and leaves the registers unchanged. |
| Driver.WriteByte | src/PWFusion_MAX31856.cpp:98-108 | `writeByte` appends one frame: a write with address `reg|0x80`, then the value. It sets that register and nothing else (see PutGet). |
| Driver.PutGet | src/PWFusion_MAX31856.cpp:98-108 | After a write to one register, every other register reads as before and the written one reads as the value. |
| Driver.WriteControl | src/PWFusion_MAX31856.cpp:120-147 | The first three writes of `config` put CR0, `AVG|TYPE` in CR1 and 0x3C in MASK, in that order, and change nothing else. |
| Driver.WriteThresholds | src/PWFusion_MAX31856.cpp:165-178 | The last six writes of `config` put 0x7F, 0x00, 0x7F, 0xFF, 0xFF and 0x80 in CJHF..LTLFTL, in that order. |
| Driver.ConfigEffect | src/PWFusion_MAX31856.cpp:111-179 | After `config`, each register holds what `config` writes there (CR0, CR1, 0x3C, 0x7F, 0x00, 0x7F, 0xFF, 0xFF, 0x80), or its old value. |
| Driver.Configure | src/PWFusion_MAX31856.cpp:111-179 | `config` performs exactly nine complete write frames: CR0, CR1, MASK, CJHF, CJLF, LTHFTH, LTHFTL, LTLFTH, LTLFTL. Mode, filter, averaging and type read back as selected, and CR0's one-shot and CJ-disable bits are clear. |
| Driver.Sample | src/PWFusion_MAX31856.cpp:182-226 | `sample` performs exactly six read frames (SR, CJTH, CJTL, LTCBH, LTCBM, LTCBL) and no write. It stores the status unmodified and both decoded temperatures, whatever the status. |
| Driver.ReadColdJunction | src/PWFusion_MAX31856.cpp:190-205 | Reads CJTH then CJTL, and returns the decoded count, which fits `int16_t`. |
| Driver.ReadThermocouple | src/PWFusion_MAX31856.cpp:207-225 | Reads LTCBH, LTCBM, LTCBL, and returns the decoded count, which fits `int32_t`. |
| Driver.SetOneShotIdempotent | src/PWFusion_MAX31856.cpp:229-235 | Triggering twice leaves the registers as triggering once. The trigger sets bit 6 of CR0, keeps the other CR0 bits, and leaves the other registers unchanged. |
| Driver.StartOneShot | src/PWFusion_MAX31856.cpp:229-235 | `startOneShotMeasurement` reads CR0, then writes CR0 with 0x40 or-ed in. |
| Driver.SetColdJunctionOffset | src/PWFusion_MAX31856.cpp:244-253 | Writes the offset's two's-complement byte to CJTO. The byte reads back as the same `int8_t`. |
| LegacyRegisters.RegDefineAddr | PlayingWithFusion_MAX31856.h:51-66 | The legacy register defines equal the current addresses and lie in 0x00..0x0F, so `& 0x0F` is the identity on them. |
| LegacyRegisters.RegDefineInjective | PlayingWithFusion_MAX31856.h:51-66 | The sixteen legacy register defines are distinct. |
| LegacyRegisters.LegacyCr0Agrees | PlayingWithFusion_MAX31856.cpp:99-110 | For the header constants, the legacy CR0 equals the current one. Any mode byte other than CMODE_AUTO selects single-shot. |
| LegacyRegisters.LegacyAvgMisread | PlayingWithFusion_MAX31856.h:86-99 | With the legacy AVG_SEL constants, CR1 still reads back the type. But 2 samples read as 4, 4 and 8 as 16, and 16 as 1 with reserved bit 7 set. Only 1 sample matches the current header. |
| LegacyRegisters.LegacyAvgExample | PlayingWithFusion_MAX31856.cpp:120-124 | Type K with AVG_SEL_16SAMP writes 0x83, which reads as 1 sample. The current header's value, 0x43, reads as 16. |
| LegacyRegisters.DefaultMaskInside | PlayingWithFusion_MAX31856.cpp:127-128 | The default mask 0x3C lies inside the write mask 0x3F. |
| LegacyDriver.SingRegRead | PlayingWithFusion_MAX31856.cpp:60-71 | `_sing_reg_read` appends one read frame for `RegAdd & 0x0F`, returns that register, and changes no register. |
| LegacyDriver.SingRegWrite | PlayingWithFusion_MAX31856.cpp:73-90 | `_sing_reg_write` appends a complete read frame, then a complete write frame of the merged value to `(RegAdd & 0x0F) | 0x80`. Only that register changes, and it takes the merge. |
| LegacyDriver.RegRead | PlayingWithFusion_MAX31856.cpp:60-71 | Called with a register define, `_sing_reg_read` reads exactly that register, as one read frame, and changes nothing. |
| LegacyDriver.RegWrite | PlayingWithFusion_MAX31856.cpp:73-90 | Called with a register define, `_sing_reg_write` reads that register, then writes back the merge of its old value and the data under the mask. No other register changes. |
| LegacyDriver.LegacyWriteControl | PlayingWithFusion_MAX31856.cpp:99-124 | The legacy `config` writes CR0 and then `avgMode|tcType` to CR1, each with mask 0xFF, so both registers take exactly the new byte. |
| LegacyDriver.LegacyConfigEffect | PlayingWithFusion_MAX31856.cpp:92-154 | The legacy `config` overwrites CR0 and CR1 and sets MASK to `(old & 0xC0) | 0x3C`. It leaves every other register, the thresholds included, as it was. |
| LegacyDriver.LegacyConfigure | PlayingWithFusion_MAX31856.cpp:92-154 | The legacy `config` is six frames: read/write of CR0 and CR1 under mask 0xFF, then of MASK under mask 0x3F. No threshold register is written. |
| LegacyDriver.ConfigVariants | PlayingWithFusion_MAX31856.cpp:99-128 | For the same selections, both `config` variants give the same CR0 and the same MASK bits 5:0. Their CR1 bytes agree iff 1 sample is selected. The legacy one leaves CJHF as it was, while the current one sets it to 0x7F. |
| LegacyDriver.Update | PlayingWithFusion_MAX31856.cpp:156-180 | `MAX31856_update` performs the same six read frames as the current `sample` and no write. It stores the status unmodified and both legacy-decoded temperatures. |
| LegacyDriver.UpdateColdJunction | PlayingWithFusion_MAX31856.cpp:163-169 | Reads CJTH then CJTL, and returns the legacy cold-junction count. |
| LegacyDriver.UpdateThermocouple | PlayingWithFusion_MAX31856.cpp:171-179 | Reads LTCBH, LTCBM, LTCBL, and returns the legacy thermocouple count. |
| LegacyDriver.OneShotStart | PlayingWithFusion_MAX31856.cpp:182-191 | `MAX31856_1shot_start` produces the same frames and the same registers as the current `startOneShotMeasurement`: CR0 gains bit 6 and nothing else changes. |
| LegacyDriver.CjOffset | PlayingWithFusion_MAX31856.cpp:193-201 | `MAX31856_CJ_offset` stores the offset's two's-complement byte in CJTO, read back as the same `int8_t`. No other register changes. |

## Left out

- Floating point: `getTemperature` and `getColdJunctionTemperature` (count times 2^-7 or 2^-6) and the float-to-`int8_t` conversion at the start of `setColdJunctionOffset`. `SetColdJunctionOffset` takes the converted `int8_t`.
- Pin setup and SPI plumbing: `begin`, the constructors, `pinMode`, and the SPI clock and mode settings and `beginTransaction`/`endTransaction`. They do not change the bytes on the wire.
- Timing: the conversion delay after a one-shot trigger, and the DRDY and FAULT pins.
- Sharing one bus between several chips: the model has one chip per bus.
- The chip's burst mode (the register address incrementing after the data byte). The drivers never send more than two bytes per transaction. The modelled chip ignores extra bytes and answers 0x00 outside the data slot.
- `Configure` and `Driver.Configure`: the current `config` is modelled on enumerated selections. Raw bytes outside the header constants are not modelled for the current driver. The header declares `config` with `uint8_t` arguments, while the implementation uses `Tc_Type`, `Max31856_Conversion_Mode` and `CONV_AUTO`, which the header does not define. The legacy `config` is modelled on raw bytes.
- Decode.Thermocouple, Decode.ColdJunction: the C negation `(int32_t)(-(x & 0x3FFFF))` is computed in unsigned arithmetic and converted back. It is modelled as mathematical negation, which is what that conversion yields on two's-complement targets.
- LegacyDecode.LegacyColdJunction, LegacyDecode.LegacyThermocouple: the storage of out-of-range unsigned values into `int16_t`/`int32_t` is modelled as two's-complement wrap-around. The 16-bit `int` promotion of `byte << 8` on 8-bit targets is not modelled. Only bits 22:0 and bit 23 reach the result, so sign extension there would give the same value.
- The legacy header declares a three-argument constructor and `SPIbus_Init`, which the implementation does not define. Neither is modelled.

## Findings

| source | as written | input that shows it | evidently intended | confidence | as-written member | corrected member |
|---|---|---|---|---|---|---|
| PlayingWithFusion_MAX31856.h:87-91 | `AVG_SEL_2SAMP`..`AVG_SEL_16SAMP` are 0x20, 0x40, 0x60, 0x80. That is one bit left of the AVGSEL field, bits 6:4, described at PlayingWithFusion_MAX31856.cpp:123. | `MAX31856_config(K_TYPE, CUTOFF_60HZ, AVG_SEL_16SAMP, CMODE_AUTO)` writes CR1 = 0x83. The chip reads that as 1 sample, with reserved bit 7 set. `AVG_SEL_2SAMP` reads as 4 samples. | 0x00, 0x10, 0x20, 0x30, 0x40, the values of src/PWFusion_MAX31856.h:89-93 | high; not executed | LegacyRegisters.LegacyAvgMisread | Registers.Cr1RoundTrip |
