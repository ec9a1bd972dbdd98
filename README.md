# eink-pricetags: a verified model of the tag firmware and the gateway

The system drives cheap 2.13" e-ink price tags. Each tag has an MSP430 microcontroller, an e-paper panel, an SPI
flash and an Amiccom A7106 2.4 GHz radio. A Raspberry Pi gateway serves an image to the tags in 32-byte chunks.
This project models the code that does the work on both sides:

- **Gateway (Python, host side)**
  - `server.py`: the per-packet handler, which decodes a request, updates the client table and builds the reply.
  - `a7106.py`: the A7106 driver. It covers GPIO bit-banging, register reads and writes, strobes, transmit and
    receive, and the calibration checks.
  - `provision.py`: the run-length encoder for the boot screen.
  - `autocor.py`: the tag-address generator. It uses popcount and autocorrelation.
- **Tag firmware (C)**
  - `pins.h`: the pin primitives and bit-banged SPI.
  - `flash.c`, `radio.c` and `epd.c`: the flash, radio and panel drivers.
  - `main.c`: the hex message, the glyph-streaming state machine `bitmap`, `draw_msg` and the checkerboard test
    pattern.

How the model is built:

- **Hardware.** Hardware is reached only through pins, so every pin operation is an event in a recorded trace.
  - On the tag, `Pins.Mcu` holds the port registers. Its ghost trace of `SetDir`/`SetPin`/`GetPin` events is
    always the replay that produced those registers.
  - On the gateway, `A7106.Radio` records the GPIO wire and, above it, the chip-select frames. Each frame is the
    bytes shifted out plus the bytes shifted in.
  - Input pins are oracles: the tag's n-th pin read sees `input(n)`, and the radio's n-th IO1 sample is `io1(n)`.
- **Decoders.** Each driver is proved against a decoder that watches the pins:
  - `Epd.PanelRun` reads the panel's CS, DC, CLK and DATA lines.
  - `Pins.Clocked` gives the bits a device latches on rising clock edges.
  - `A7106.EdgeLevels` and `A7106.Senses` give the radio's view of the wire.
- **Integers.** C integer widths are explicit:
  - `bv8` for `uint8_t`;
  - 16-bit `unsigned` via `Unsigned`;
  - `uint16` wrap-around in `Epd.EndOf`;
  - `uint32` for the timer.
- **Gateway state.** The Python side uses unbounded integers restricted to the ranges that `bytes` and `struct`
  accept.

## Model

| member | source | states |
|---|---|---|
| Bytes.FromLEOfLE | server/server.py:25 | Reading back a little-endian packing of `v` into `n` bytes gives `v`, whenever `v` fits, as `struct.unpack('<…')` inverts `struct.pack` |
| Bytes.LEOfFromLE | server/server.py:47 | Packing the little-endian value of a byte string at its own width gives the same bytes back |
| Bytes.FromBEOfBE | server/a7106.py:229-232 | The big-endian packing `struct.pack('>I')` is undone by `struct.unpack('>I')` for every value that fits |
| Bytes.BEOfFromBE | server/a7106.py:232 | The big-endian round trip the other way: bytes → value → bytes is the identity |
| Bytes.BytesOfBitsOf | server/a7106.py:155-156 | Splitting bytes into MSB-first bits (`'{:08b}'`) and regrouping them into bytes restores the bytes |
| Bytes.ToBitsOfFromBits | server/a7106.py:171-177 | Assembling a value from MSB-first bits (`din = din << 1 \| bit`) and writing it back out as bits of the same width restores the bits |
| Bytes.Slice | server/server.py:47 | Python slicing `s[i:j]`: the length is clipped to the sequence and each element is `s[i + k]` |
| Bytes.Zeros | server/a7106.py:253 | `bytes(n)` is `n` zero bytes |
| GatewayServer.DecodeRequest | server/server.py:21-25 | A request exists exactly when the payload has at least 11 bytes and its length byte is at least 10, and then bytes 1..10 are the little-endian `<IIH` encoding of the decoded request; otherwise `struct.unpack` raises |
| GatewayServer.DecodeRequestBytes | server/server.py:21-25 | Round trip: a payload made of a length byte ≥ 10, the encoding of any request and any padding decodes to that request |
| GatewayServer.RequestBytesInjective | server/server.py:25 | Different requests have different 10-byte encodings |
| GatewayServer.Register | server/server.py:27-33 | The new table has the same keys plus the sender. All other clients are untouched. The sender's `rx_count` is one more than before (0 for a new client). A known client keeps its stored `img_id`/`offset`, and a new one gets the request's |
| GatewayServer.TableSummary | server/server.py:14-33 | After any sequence of requests into an empty table: a client is present iff it sent a request, its `rx_count` is the number of its requests, and its stored `img_id`/`offset` are those of its first request |
| GatewayServer.CountZeroFirst | server/server.py:27-28 | A client has sent no request exactly when it has no first request |
| GatewayServer.Reply | server/server.py:39-47 | A reply exists iff the offset is inside the image. Its length is `6 + min(32, len(image) - offset)`, between 7 and 38. It starts with the server's image ID (4 bytes little-endian) and the offset (2 bytes little-endian), followed by exactly `image[offset:offset+32]` |
| GatewayServer.ReplyFitsPacket | server/server.py:46-47 | Every reply fits the 64-byte packet length, so `transmit` never refuses it |
| GatewayServer.RoundStartsWithGatewayId | server/server.py:18-19 | Every round's frames start with `set_id(gateway_id)`: the ID write to register 0x06 followed by its read-back |
| GatewayServer.EinkServer.constructor | server/server.py:7-10 | A server over a ready radio starts with an empty client table |
| GatewayServer.EinkServer.Start | server/server.py:7-10 | Building the server fails exactly when the radio's `__init__` fails (channel out of range or ID read back wrong). On success the radio has sent exactly the frames of `__init__`, with packet length 64 despite `packet_len=40` |
| GatewayServer.EinkServer.Receive | server/server.py:18-25 | One round's receive: the request is the decoding of the packet the radio delivers. There is none when the ID read-back, CRC, FEC or decoding fails, because `serve` swallows every exception. The frames and IO1 samples taken are exactly those of `set_id` and `blocking_receive` |
| GatewayServer.EinkServer.ReceivePacket | server/server.py:19 | `blocking_receive` inside `serve`: the payload, frames and samples are those of the radio's receive, and a CRC/FEC error gives no payload |
| GatewayServer.EinkServer.Respond | server/server.py:27-47 | The client table is updated by `Register`. The offset is reset to 0 for a tag showing another image (`OffsetInUse`). No frame is sent and no sample taken when there is no reply. Otherwise `set_id` of the client sends its write and read-back frames and takes 32 samples. The reply is transmitted exactly when the ID reads back correctly, and then it is exactly `Reply(...)` and its transmit frames are the only further frames |
| GatewayServer.EinkServer.Step | server/server.py:17-53 | One loop iteration: the table and request log change only when a request was decoded, and then by exactly that request. A reply is sent iff a request was decoded, its offset is inside the image and the client's ID reads back correctly; it is then exactly `Reply(...)`. The radio's new frames and sample count are exactly those of the receive half followed, when a request was decoded, by those of the reply half |
| GatewayServer.EinkServer.Serve | server/server.py:13-53 | After any number of rounds, the client table is the summary of all decoded requests in order (see `TableSummary`), and every reply is 7 to 38 bytes long |
| A7106.CommandEncodingsDecode | server/a7106.py:184-205 | The chip reads each command byte the driver sends as the operation that sent it: `write_reg` as a register write, `read_reg`'s `address \| 0x40` as a read of that address, and `strobe`'s `command << 4` as that strobe |
| A7106.ClockOutReadsBack | server/a7106.py:154-166 | The chip, latching DA on each rising CK edge, receives exactly the bits shifted out, and nothing is sampled while shifting out |
| A7106.ClockInReadsBack | server/a7106.py:168-180 | The IO1 samples taken while clocking in are exactly the bits read |
| A7106.FrameWaveReadsBack | server/a7106.py:150-182 | A frame's waveform asserts CS only at its two ends. The chip receives the frame's TX bytes MSB first, and the samples regroup into the frame's RX bytes |
| A7106.LineByteBits | server/a7106.py:169-179 | Eight IO1 samples assembled as `din << 1 \| bit` are a byte whose MSB-first bits are the samples |
| A7106.Radio.WireIsWaves | server/a7106.py:150-182 | The wire is always the idle levels followed by the waveform of each recorded frame, in order |
| A7106.Radio.constructor | server/a7106.py:41-49 | The GPIO set-up leaves CS high, CK and DA low, with no frame sent and no sample taken |
| A7106.Radio.ShiftOutByte | server/a7106.py:156-163 | One byte's signals are CK low, DA set to the bit, CK high, for each bit MSB first |
| A7106.Radio.ShiftOut | server/a7106.py:155-163 | The TX loop drives the MSB-first bits of all the data in order |
| A7106.Radio.ShiftInByte | server/a7106.py:170-179 | One RX byte is the next eight IO1 samples MSB first, and the signals are CK high, sample, CK low per bit |
| A7106.Radio.ShiftIn | server/a7106.py:168-180 | `rx_len` bytes are read from the next `8 * rx_len` IO1 samples, in order |
| A7106.Radio.TxRx | server/a7106.py:150-182 | One chip-select frame is recorded, made of the data sent and the bytes read. The bytes read are exactly the next `rx_len` bytes on IO1 |
| A7106.Radio.WriteReg | server/a7106.py:184-194 | A byte-string write is one frame `[address] ++ data` that reads nothing |
| A7106.Radio.WriteRegValue | server/a7106.py:186-194 | An integer outside 0..255 raises and sends nothing; otherwise one frame `[address, value]` is sent |
| A7106.Radio.ReadReg | server/a7106.py:196-199 | One frame sending `address \| 0x40` and reading exactly `len` bytes from IO1 |
| A7106.Radio.Strobe | server/a7106.py:201-205 | One frame holding the single byte `command << 4` |
| A7106.Radio.SetChannel | server/a7106.py:222-224 | Writes the channel to register 0x0F, and raises without sending for a channel outside 0..255 |
| A7106.Radio.SetId | server/a7106.py:226-237 | Writes the ID big-endian to register 0x06, then reads back 4 bytes. It fails exactly when the big-endian read-back differs from the ID |
| A7106.Radio.SetPacketLength | server/a7106.py:239-244 | Succeeds exactly for 1..64. It then stores the length and writes `length - 1` to register 0x03; otherwise nothing changes |
| A7106.Radio.Transmit | server/a7106.py:246-259 | Raises exactly when the data is longer than the packet length. Otherwise it sends the frames strobe 0xE0, then register 0x05 with the data zero-padded to exactly the packet length, then strobe 0xD0 |
| A7106.Radio.BlockingReceive | server/a7106.py:261-275 | After strobe 0xC0 and the mode read: CRC error iff bit 5 is set; FEC error iff bit 5 is clear and bit 6 is set. Only when both are clear are strobe 0xF0 sent and exactly `packet_length` bytes read from register 0x05 |
| A7106.Radio.Configure | server/a7106.py:60-115 | The set-up register writes are sent in program order, with the source's values |
| A7106.Radio.StartCalibration | server/a7106.py:118-122 | Clears MFBS, MCVS and MVBS, enters PLL mode (strobe 0xB0) and enables the IF filter bank |
| A7106.Radio.ReadCalibration | server/a7106.py:125-146 | Reads CCR, 0x22, 0x24 and 0x25. The report flags exactly `CCR & 0x0F != 0`, 0x22 bit 4, 0x24 bit 4 and 0x25 bit 3, and never raises |
| A7106.Radio.Calibrate | server/a7106.py:117-146 | The whole calibration sequence and its report, as the two above |
| A7106.Radio.Setup | server/a7106.py:58-146 | `setup` sends the configuration and then the calibration, and reports calibration failures without raising |
| A7106.Radio.Identify | server/a7106.py:54-56 | The outcome is a range error for the channel, or an ID mismatch, or success. On success the channel, ID, read-back and packet length 64 frames are sent, and the packet length is 64. A range error sends nothing and takes no sample. An ID mismatch sends exactly the channel, ID and read-back frames, takes 32 samples and leaves the packet length unchanged |
| A7106.Radio.Initialize | server/a7106.py:53-56 | `setup` followed by `Identify`, with the ID read-back taken after the 32 calibration samples. On each of the three outcomes the frames are the setup frames followed by exactly the ones `Identify` sends in that case; the samples and the packet length are stated for each outcome as well |
| A7106.Radio.Open | server/a7106.py:36-56 | `__init__` fails exactly as `InitOutcome` says. On success the radio is ready with packet length 64, whatever `packet_len` was passed, and the frames are exactly those of `__init__` |
| Provision.Entry | server/provision.py:46 | `bit << 7 \| count` is one byte whose colour is the bit and whose run length is the count, for every count up to 127 |
| Provision.ExpandLength | server/provision.py:38-49 | The number of pixels the entries expand to is the sum of their counts |
| Provision.EntriesAtMostPixels | server/provision.py:42-49 | A canonical encoding (every count at least 1) has no more entries than pixels |
| Provision.CanonicalUnique | server/provision.py:43-48 | Two canonical encodings that expand to the same bits are equal. Canonical means: counts 1..127, and two neighbours share a colour only after a full run of 127 |
| Provision.RleBits | server/provision.py:35-50 | `rle` over a non-empty bit sequence: the entries expand back to exactly the input bits (round trip) and are canonical, and the first entry has the colour of the first bit |
| Provision.Rle | server/provision.py:35-50 | The same over the MSB-first bits of the image bytes given to `BitArray`, with at most one entry per pixel |
| Provision.Flip | server/provision.py:56 | `e ^ 0x80` inverts the colour and keeps the run length |
| Provision.FlipFlip | server/provision.py:56 | Flipping bit 7 twice restores the entry, so the firmware can undo the inversion |
| Provision.Emit | server/provision.py:54-58 | One byte per entry, each the entry with bit 7 inverted, and `bootscreen_len` is the number of entries |
| Provision.BootscreenDecodes | server/provision.py:52-58 | For the 4000-byte boot screen, un-inverting the emitted bytes and expanding them gives back the image bits, and `bootscreen_len` fits the `uint16_t` |
| Autocorrelation.PopCountIsOnes | server/autocor.py:4-9 | `bitcount` is the number of set bits among the `n` bits of `x` |
| Autocorrelation.PopCountBound | server/autocor.py:4-9 | An `n`-bit value has at most `n` set bits |
| Autocorrelation.BitCount | server/autocor.py:4-9 | The loop terminates for every `x >= 0` and returns the popcount |
| Autocorrelation.Autocor | server/autocor.py:11-23 | Returns 63 values in shift order -31..31, each `32 - bitcount(xor)` |
| Autocorrelation.AgreementsUpToIndex | server/autocor.py:14-21 | The value at index `i` of the list is the value for shift `i - 31` |
| Autocorrelation.AgreementBounds | server/autocor.py:15-21 | Every autocorrelation value lies in 0..32 |
| Autocorrelation.AutocorCentre | server/autocor.py:18-21 | The value at shift 0 (index 31) is always 32 |
| Autocorrelation.Goodness | server/autocor.py:31-39 | `fails` counts the values above the threshold. `almost_fails` counts only the values equal to it, because `elif v >= threshold` is reached only when `v <= threshold` |
| Autocorrelation.DefaultThresholdMeansNoOtherPeak | server/autocor.py:25-41 | With threshold 17, acceptance means that no shift other than 0 agrees in more than 17 bits |
| Autocorrelation.CandidateFields | server/autocor.py:27 | A candidate `(prefix << 28) \| r` has `r` as its low 28 bits and the prefix as its top 4 bits |
| Autocorrelation.Mac | server/autocor.py:25-44 | For a 4-bit prefix and 28-bit draws: each draw is tried in order. An accepted candidate is built from the last draw used and passes the test, while every earlier draw failed. Running out of draws returns nothing |
| Pins.RegisterSet | src/pins.h:23 | `(port >> 4) & 3` selects one of the four `ports[]` entries |
| Pins.Mask | src/pins.h:24 | `1 << (port & 7)` is always exactly one bit |
| Pins.MasksDisjoint | src/pins.h:24 | Pins with different bit numbers have disjoint masks |
| Pins.SetBit | src/pins.h:25-28 | `\|= mask` / `&= ~mask` sets or clears exactly the mask bit and keeps every other bit |
| Pins.ReplaySnoc | src/pins.h:21-39 | Each event changes only the addressed register, and only its mask bit: `SetPin` changes an output register, `SetDir` a direction register |
| Pins.LevelAfterSetBit | src/pins.h:31-39 | After writing a pin, that pin reads the written level, and every other pin keeps its level |
| Pins.SetPinEffect | src/pins.h:31-39 | After `pin_write` the pin's level is the value written. The other bits of its register and all other registers are unchanged |
| Pins.OutLevel | src/pins.h:31-39 | A pin's level after a trace is the last level written to it, or its initial level if it was never written |
| Pins.PortZeroIsNull | src/pins.h:13-18 | Every pin address below 0x10 selects `ports[0]`, whose register pointers are NULL |
| Pins.SpiClocksOutValue | src/pins.h:62-71 | A device latching the data pin on each rising clock edge receives the bits of `out_value`, bit 7 first |
| Pins.SpiDeliversValue | src/pins.h:62-71 | Those eight bits, shifted in, are `out_value` |
| Pins.SpiEndsClockLow | src/pins.h:70 | `spi_write` returns with the clock low |
| Pins.SpiLeaves | src/pins.h:62-71 | `spi_write` drives only its clock and data pins and changes no direction |
| Pins.SpiWithoutInputReadsNothing | src/pins.h:67 | With `in_port == 0` no pin is read |
| Pins.AsWrittenAgreesOnBitZero | src/pins.h:68 | For an input pin on bit 0 (mask 1), `in_value` as written is the byte shifted in from the samples |
| Pins.AsWrittenLosesBits | src/pins.h:68 | On the flash's DO pin (0x16) with the line high, `in_value` as written is 0xC0, while the byte on the line is 0xFF |
| Pins.TransferReadsSamples | src/pins.h:68 | The corrected accumulation returns the byte whose MSB-first bits are exactly the eight samples |
| Pins.Mcu.constructor | src/pins.h:13-18 | The registers start at the given values with an empty trace |
| Pins.Mcu.PinDdr | src/pins.h:21-29 | `pin_ddr` appends one `SetDir` event; the direction registers stay the replay of the trace |
| Pins.Mcu.PinWrite | src/pins.h:31-39 | `pin_write` appends one `SetPin` event, with level `value != 0`; the output registers stay the replay of the trace |
| Pins.Mcu.PinRead | src/pins.h:41-46 | `pin_read` returns `in & mask`, which is 0 or the mask (not 0/1), and counts one read |
| Pins.Mcu.ClockBit | src/pins.h:64-70 | One pass of the loop: drive data, clock high, sample if `in_port` is nonzero, clock low |
| Pins.Mcu.SpiStep | src/pins.h:62-71 | Pass `k` extends the trace by exactly the events of bit `k` and samples the `k`-th input |
| Pins.Mcu.SpiWrite | src/pins.h:53-74 | `spi_write` as written: 8 passes for masks 0x80..0x01, with the trace of all 8 clock pulses. `in_value` is the as-written OR of the masked samples, and 0 when `in_port` is 0. `out_port` must be wired |
| Pins.Mcu.SpiTransfer | src/pins.h:53-74 | The corrected transfer: the same trace, `out_port == 0` is allowed and drives no data pin, and `in_value` is the byte shifted in from the samples |
| Flash.ReadCommand | src/flash.c:41-44 | The command is 4 bytes starting with READ (0x03) |
| Flash.ReadCommandAddress | src/flash.c:42-44 | The three address bytes reassemble to `addr & 0xFFFFFF` |
| Flash.ReadCommandIgnoresTopByte | src/flash.c:42-44 | Two addresses give the same command iff they agree in their low 24 bits |
| Flash.FlashInit | src/flash.c:17-25 | The events are DDR writes for CS, CLK and DI (outputs) and DO (input), then CS high |
| Flash.InitLevels | src/flash.c:17-25 | After `flash_init`, whatever came before: CS, CLK and DI are outputs, DO is an input and CS is high |
| Flash.FlashWriteByte | src/flash.c:28-31 | One `spi_write` on CLK/DI with no input pin, so nothing is read |
| Flash.FlashReadByte | src/flash.c:33-36 | Reads one byte from DO with the corrected transfer: eight samples shifted in, with no data pin driven |
| Flash.SendCommand | src/flash.c:41-44 | The four command bytes are written in order |
| Flash.FlashRead | src/flash.c:38-50 | The trace is CS low, the command and address, `len` byte reads, CS high. `buf[i]` is the `i`-th byte read for every `i < len`, and every other element of `buf` is unchanged |
| Flash.WriteAllClocksBits | src/flash.c:41-44 | The flash, latching DI on rising CLK edges, receives the MSB-first bits of the bytes written |
| Flash.FlashReceivesCommand | src/flash.c:41-44 | Regrouped into bytes, those bits are exactly the READ command and its address |
| Flash.ReadFramedByCs | src/flash.c:40-49 | `flash_read` drives CS low first and high last, and nothing in between touches CS |
| Flash.ReadByteDrivesOnlyClock | src/flash.c:35 | Reading a byte drives only the clock pin |
| RadioFirmware.RadioWrite | src/radio.c:16-19 | `spi_write` on SCK/SDIO with no input pin |
| RadioFirmware.RadioCs | src/radio.c:21-24 | SCS is driven to `!selected` (active low) |
| RadioFirmware.RadioInit | src/radio.c:26-38 | The events are the three DDR writes, SCS high, select, the SLEEP byte, deselect |
| RadioFirmware.InitSendsSleep | src/radio.c:35-37 | Within the chip-select frame, the radio receives exactly the eight bits of 0x80. Nothing in that frame drives SCS, and nothing is read |
| RadioFirmware.InitDirections | src/radio.c:28-32 | SDIO, SCK and SCS end as outputs and SCS ends high |
| RadioFirmware.InitLeavesRadioDeselected | src/radio.c:26-38 | Whatever the prior register state, after `radio_init` the three pins are outputs and SCS is high |
| RadioFirmware.CommandsAreStrobes | src/radio.c:13-14 | 0x80 and 0xA0 are the radio's strobes 8 (sleep) and 10 (standby) in the `command << 4` encoding the host driver uses |
| Epd.PanelReceivesBits | src/epd.c:37-42 | A selected controller clocking `spi_write`'s events receives the bits of the value MSB first, and after the eighth bit one complete byte tagged by DC |
| Epd.PanelReceivesOp | src/epd.c:44-54 | A command or data write delivers exactly that one tagged byte to the controller, and the controller ends deselected |
| Epd.PanelReceivesOps | src/epd.c:37-54 | Any list of command/data writes is received by the controller as exactly that list |
| Epd.OpsReadNothing | src/epd.c:40 | Writing to the panel reads no pin |
| Epd.EpdWrite | src/epd.c:37-42 | CS low, one write-only `spi_write` on CLK/DATA, CS high |
| Epd.EpdCommand | src/epd.c:44-48 | DC low, then one framed byte |
| Epd.EpdData | src/epd.c:50-54 | DC high, then one framed byte |
| Epd.EpdSetup | src/epd.c:56-75 | RESET, POWER, CS, DC, CLK and DATA become outputs and BUSY an input, in that order |
| Epd.EpdReset | src/epd.c:78-89 | POWER low, RESET low, RESET high, then the software-reset command 0x12 |
| Epd.EpdShutdown | src/epd.c:269-280 | Command 0x10 with data 0x01, then RESET, CS and POWER driven high |
| Epd.ShutdownLeavesPinsHigh | src/epd.c:275-279 | After `epd_shutdown`, whatever came before, RESET, CS and POWER are high |
| Epd.InitSendsHeightAndLut | src/epd.c:149-203 | `epd_init` sends 52 ops. It opens with 0x01 and the panel height little-endian. Later come 0x32 and all 32 bytes of `epd_lut_full` in order, and it ends with 0x21, 0x83 |
| Epd.InitGeometry | src/epd.c:151-168 | Driver output control, dummy line period, gate line width and data entry mode, with the source's values |
| Epd.InitAnalog | src/epd.c:170-182 | VCOM, booster soft start and border waveform, with the source's values |
| Epd.SendLut | src/epd.c:187-189 | The LUT loop sends every byte of the table as data, in order |
| Epd.EpdInit | src/epd.c:149-203 | The whole `epd_init` byte stream |
| Epd.EndOf | src/epd.c:208-209 | `start + size - 1` in `uint16_t` arithmetic: the plain value when it fits, and 0xFFFF for a zero size at 0 |
| Epd.EpdSetFrame | src/epd.c:205-236 | The trace is exactly the 14 ops of `epd_set_frame` |
| Epd.SetFrameWindow | src/epd.c:205-236 | The 14 ops are: 0x44 with `x >> 3` and `x_end >> 3`; 0x45 with `y_end` low, high and `y` low, high; 0x4e with `x >> 3`; 0x4f with `y_end` low, high; and last 0x24 |
| Epd.SetFrameRoundsWidthUp | src/epd.c:211-214 | For an 8-aligned `x`, the X window spans `ceil(w / 8)` bytes |
| Epd.SetFrameZeroHeightWraps | src/epd.c:208 | A zero height wraps `y_end` to 0xFFFF |
| Epd.EpdDrawStart | src/epd.c:238-241 | `epd_set_frame(0, 0, EPD_WIDTH, EPD_HEIGHT)` |
| Epd.DrawStartColumns | src/epd.c:238-241 | The full-panel window runs over X bytes 0 to 15 (0x0F) |
| Epd.DrawStartRows | src/epd.c:238-241 | The full-panel window runs from Y end 249 (0xF9, 0x00) down to Y start 0 (0x00, 0x00) |
| Epd.EpdDisplay | src/epd.c:243-253 | Display update control 2 (0x22, 0xC4), then activate (0x20) |
| Display.HexDigitIsNibble | src/main.c:90-97 | `hexdigit` is `'0' + x` or `'A' + x - 10` of the low nibble, and its hex value is `x & 0xF` |
| Display.HexDigitLowNibble | src/main.c:92 | `hexdigit` depends only on `x & 0xF` |
| Display.HexDigitRange | src/main.c:93-96 | Every hex digit lies between '0' and 'F' |
| Display.MessageChars | src/main.c:121-131 | The message is '=' then 8 hex digits then '!', every character between ' ' and 'F' |
| Display.MessageRoundTrip | src/main.c:121-131 | Parsing characters 1..8 back as hex recovers `timer`, most significant nibble first |
| Display.MessageInjective | src/main.c:121-131 | Different timer values give different messages |
| Display.TickChangesMessage | src/main.c:139-144 | Each watchdog tick changes the message. The 32-bit counter wraps to 0 only from 0xFFFFFFFF |
| Display.CheckerAt | src/main.c:19-25 | Byte `x / 8` of row `y` of the test pattern is 0x00 exactly when `x < 64` and `y < 32`, and 0xFF otherwise |
| Display.CheckerRowsAreFrame | src/main.c:19-32 | The rows, concatenated in order, are the whole 4000-byte pattern |
| Display.SendCheckerRow | src/main.c:20-32 | The inner loop sends one row: 16 data bytes for `x = 0, 8, …, 120` |
| Display.SendChecker | src/main.c:19-32 | The nested loops send exactly the 4000 bytes of the pattern as data, row by row |
| Display.EpdCheckerboard | src/main.c:10-35 | `epd_checkerboard` sends `epd_draw_start`'s ops, then the pattern, then `epd_display`'s ops |
| Display.BitmapStep | src/main.c:43-71 | See the list after the table |
| Display.Row | src/main.c:82-85 | The 16 `bitmap` calls of one row keep the cursor valid, and every byte is 0x00 or 0xFF |
| Display.Rows | src/main.c:81-85 | `16 * n` bytes over `n` rows, each 0x00 or 0xFF, with the cursor still valid |
| Display.RowShowsColumn | src/main.c:52-70 | When a new row starts inside a glyph, the cursor moves to the next glyph column. Each byte of the row then shows that column's bit `(x >> 4) & 7`, where `x` is the in-row byte offset that lands in `bitmap`'s `y` |
| Display.EmptyRowIsWhite | src/main.c:45-50 | An empty message gives an all-white row and keeps the cursor |
| Display.EmptyRowsAreWhite | src/main.c:45-50 | An empty message gives an all-white frame |
| Display.FrameFillsWindow | src/main.c:80-85 | The frame `draw_msg` streams has exactly one byte per 8 pixels of the window `epd_draw_start` opens: 16 × 250 |
| Display.Tag.constructor | src/main.c:37-40 | `msg` starts as 16 NULs, with `msg_i`, `glyph_x` and `msg_x` all 0 |
| Display.Tag.ShowTimer | src/main.c:121-133 | `msg[0..9]` becomes the timer message, the rest of `msg` is unchanged, and the three counters are reset to 0 |
| Display.Tag.Bitmap | src/main.c:43-71 | `bitmap` updates the statics and returns its byte exactly as `BitmapStep` says |
| Display.Tag.StreamRow | src/main.c:82-85 | The inner loop streams `Row`'s bytes as data and leaves `Row`'s cursor |
| Display.Tag.StreamBitmap | src/main.c:81-85 | The nested loops stream the whole frame as data |
| Display.Tag.DrawMsg | src/main.c:73-88 | `draw_msg`'s trace is the events of setup, reset, init, draw start, the frame, display and shutdown, in that order |
| Display.Tag.Refresh | src/main.c:121-134 | One pass of the main loop body: the message is built, the counters are reset, and the frame for that message is drawn |

`Display.BitmapStep` models one call of `bitmap` (src/main.c:43-71). Its contract states:

- The result is 0x00 or 0xFF.
- On NUL, `msg_i` resets and the result is white.
- If `x == msg_x`, the cursor stays put and the pixel is bit `(y >> 4) & 7` of glyph column `glyph_x >> 2`.
- If `x != msg_x` and `glyph_x` is below 23, then `glyph_x` advances, `msg_x := x` (truncated to 8 bits), and the pixel is taken from the new column.
- If `x != msg_x` and `glyph_x` reaches 24, the counter resets, `msg_i` advances and the result is white.
- `glyph_x >> 2` always indexes 0..5 of a glyph.

## Left out

- The `while GPIO.input(io2) == HIGH` busy waits of `transmit` and `blocking_receive` (server/a7106.py:258-259, 264-265) and `epd_wait_busy` (src/epd.c:31-35). They are treated as environment steps that finish, since their termination depends on hardware.
- `delay` (src/epd.c:24-29), the `time.sleep` calls and the `epd_reset` delays: time is not modelled.
- GPIO set-up details of the host, the CSV register-name table, `dump_regs` and the `__main__` demos of `a7106.py`, `autocor.py` and `provision.py`: printing and host plumbing.
- Printed messages (`print`) are not modelled. `setup`'s calibration failures are returned as a `CalibrationReport`, and the exceptions `serve` swallows become `None`/`Failure` results.
- The image file, the SHA-256 image ID, PIL drawing, fonts, `git` and file output (server/server.py:55-62, server/provision.py:1-33, 52-62). These are foreign libraries and I/O, so the image bytes and the image ID are parameters.
- `bitstring.BitArray` is modelled as the MSB-first bits of each byte (`BitsOf`).
- `secrets.randbits(28)`: the random draws are a parameter of `Autocorrelation.Mac`, a finite sequence. The `while True` retry loop therefore stops when the draws run out.
- The averages in `autocor.py` (floating point, debug output only) and the frequency formula in the `set_channel` doc comment.
- `serve`'s `while True`: `GatewayServer.EinkServer.Serve` runs a given number of rounds.
- `main`'s set-up and forever loop, LPM3, the watchdog configuration and the `watchdog_timer` ISR (src/main.c:100-119, 135-144). These involve an interrupt and low-power sleep. The timer is an input to `Display.Tag.Refresh`. `Display.NextTimer` models the ISR's increment only as a value, which `Display.TickChangesMessage` uses.
- `radio_init`'s call from `main` is not composed with the display trace. `RadioFirmware.RadioInit` models it alone.
- The `font` table (`extern const uint8_t font[][6]`, src/main.c:41) is not part of this model. It is a parameter whose 6-byte glyphs must cover every character of the message (`Display.MsgOk`); the timer message needs at least 39 glyphs, up to 'F'.
- Declarations without bodies in the headers (`radio_tx`, `radio_rx`, `radio_sleep`, `flash_erase`, `flash_write`, `epd_draw_window`, `epd_draw_full`, `epd_draw_end`): there is no code to model. `radio_init`'s declared signature in src/radio.h differs from its definition in src/radio.c; the definition is modelled.
- `epd_lut_fast` and the commented-out code in epd.c and main.c are never used. The meaning of the LUT contents and the panel waveforms is out of scope.
- `epd_checkerboard` is `static` and never called. It is modelled on its own as `Display.EpdCheckerboard`.
- `radio_init`'s `RADIO_CMD_STBY` is defined but unused. Only its strobe encoding is stated.
- Helper methods and lemmas that are not functions of the source keep proofs small: `Epd.InitGeometry`/`Epd.InitAnalog` split `epd_init`, `Epd.StreamData` is one `epd_data` call inside a streaming loop, and `Display.Tag.StreamRow` and `Display.SendCheckerRow` are the inner loops of `draw_msg` and `epd_checkerboard`.
- Pins.Mcu: the `volatile` port registers are two four-byte sequences (PxDIR, PxOUT), not memory-mapped pointers. The input registers PxIN are the `input` oracle, one value per read.
- Autocorrelation.Goodness: the loop's `avg` accumulator is left out (debug only).
- A7106.Radio: the wire records GPIO levels, not their timing. IO2 is not sampled, because only the busy waits read it. IO1 samples come from the oracle.
- GatewayServer.EinkServer.Serve: states the table summary and the reply lengths over all rounds. The per-round frames, samples and send condition are stated by `Step`, which composes `Receive` and `Respond`; `Serve` does not chain them across rounds.
- Autocorrelation.Mac: requires a prefix below 16 and draws below 2^28. Python keeps a wider prefix above bit 31, which a 32-bit model cannot hold; the defaults and the script pass 0x5 and 0xa, and `randbits(28)` is always below 2^28.
- Display.Row and Display.Rows: their own contracts state only lengths, cursor validity and the 0x00/0xFF range. What each byte shows is stated by `Display.RowShowsColumn`, `Display.EmptyRowIsWhite` and `Display.EmptyRowsAreWhite`, which cover a row that starts a new glyph column and the empty message. Rows that end a glyph (the `glyph_x == 24` step) are described only step by step, by `Display.BitmapStep`.

## Findings

| source | as written | input that shows it | evidently intended | confidence | as-written member | corrected member |
|---|---|---|---|---|---|---|
| src/flash.c:35 | `flash_read_byte` calls `spi_write(SPI_FLASH_CLK, 0, SPI_FLASH_DO, 0)`. Each pass then runs `pin_write(0, …)`, which selects `ports[0]` and writes through its NULL `out` pointer | any call of `flash_read`/`flash_read_byte`: out_port 0 → `(0 >> 4) & 3 == 0` → `ports[0].out == NULL` | no data pin is driven while reading | not executed | Pins.Mcu.SpiWrite (requires a wired `out_port`), Pins.PortZeroIsNull | Pins.Mcu.SpiTransfer, Flash.FlashReadByte |
| src/pins.h:68 | `in_value = (in_value << 1) \| pin_read(in_port)` ORs the masked sample (`in & mask`, 0x40 for DO = 0x16) instead of one bit, so on a pin other than bit 0 each sample lands on the wrong bit | DO held high for all 8 samples: `in_value` is 0xC0 instead of 0xFF | each sample shifts in one bit (`!= 0`) | not executed | Pins.ShiftInAsWritten, Pins.AsWrittenLosesBits | Pins.ShiftInSamples, Pins.TransferReadsSamples |
