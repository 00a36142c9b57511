# UARTE0 receive ring — a Dafny model

This project models the receive path of the `async-uarte` firmware for the nRF52832
(`src/uarte.rs`). The UARTE0 peripheral receives serial bytes by DMA into a ring of
three five-byte `Block`s (`BUFFER_SLOTS_COUNT = 3`). `Uarte0` owns the ring and two
cursors. `write_offset` names the block the DMA pointer addresses. `read_offset` names
the next block to decode. One interrupt handler, `UARTE0_UART0`, serves three events
in a fixed order:

- ENDRX (a transfer ended): decode the block under the read cursor as UTF-8 and print it over RTT.
- RXSTARTED (a transfer began): move the DMA pointer to the next block.
- ERROR: trigger the FLUSHRX task.

Files:

- `Results.dfy`: `Option`, `Result` and `Outcome` (normal return or a panic with its message).
- `Utf8.dfy`: UTF-8 as `core::str::from_utf8` checks it.
  - `WellFormed` is the grammar of section 4 of RFC 3629.
  - `Decode` is a decoder that, like Rust's validator, reads the lead byte and then checks the continuation bytes.
  - `Encode` is the encoding of section 3 of RFC 3629.
  - Lemmas prove that `Decode` accepts exactly the `WellFormed` sequences, and that `Decode` and `Encode` invert each other.
- `Uarte.dfy`: the driver.
  - Values: `Block` (a datatype), `Block::as_str` (`AsStr`) and the event priority (`Select`).
  - `Peripheral`: a class holding the registers the driver touches.
  - `Uarte0`: a class over an `array<Block>` with the two cursors as fields.
  - `Firmware`: the `UARTE0_INSTANCE` static together with the RTT output, the ring part of `init`, and the interrupt handler.
- `Hardware.dfy`: what the peripheral does on its own side.
  - STARTRX latches `RXD.PTR`.
  - A completed transfer writes the block, raises ENDRX, and restarts through the ENDRX→STARTRX shortcut.
  - A line error raises ERROR.
  - The module also has client scenarios and `Run`, which drives the model through any sequence of stimuli and interrupts.

Abstractions:

- The DMA pointer register is modelled as `DmaAddress`: either `Unset` or `BlockAddress(slot)`, the index of the block whose bytes it points at.
- The STARTRX and FLUSHRX tasks are counters.
- The three events are booleans.
- The RTT up channel is a `string`. On success the text `as_str` returns is a Dafny `string`: the sequence of Unicode scalar values whose UTF-8 encoding is the block's five bytes (`Encode(text) == buffer`).

## Code and design

Where the code differs from the intended design, the model follows the code:

- Nothing ever sets `filled` to true. The overflow assertion of `update_rxd_buffer_location` therefore cannot fire.
  - `NoBlockFilled` holds after `Uarte0::new`.
  - Every operation and every hardware step preserves it.
  - `Hardware.Run` proves that no interrupt in any run panics.
- `next` neither checks nor clears `filled`. It decodes whatever the block holds, including a block no transfer has written yet.
- The ENDRX branch decodes and prints inside the interrupt. There is no foreground consumer.
- An overrun is a panic (`assert!`), not a returned error.
- `as_str` validates all five bytes. Zero padding is valid UTF-8 and decodes to NUL characters. A multi-byte character split across two blocks makes both blocks errors. The first block holds a lead byte whose character does not fit, after any number of its bytes (`TruncatedCharacterRejected`). The second block starts with a continuation byte (`CutCharacterRejected`).
- `src/main.rs` never calls `uarte::init`. The driver is modelled as if `init` had run.

## Model

| member | source | states |
|---|---|---|
| `Utf8.DecodeAcceptsWellFormed` | src/uarte.rs:22 | the decoder behind `from_utf8` succeeds exactly on byte sequences that are well formed by the grammar of section 4 of RFC 3629 (both directions) |
| `Utf8.DecodeEncode` | src/uarte.rs:22-23 | decoding the UTF-8 encoding of any string gives that string back |
| `Utf8.EncodeDecode` | src/uarte.rs:22-23 | when decoding succeeds, re-encoding the text gives exactly the original bytes, so the text is the bytes read as UTF-8 |
| `Utf8.WellFormedIffEncoding` | src/uarte.rs:22 | a byte sequence is valid UTF-8 exactly when it is the encoding of some string |
| `Utf8.WellFormedEnds` | src/uarte.rs:22 | valid UTF-8 never starts with a continuation byte and never ends with a lead byte |
| `Utf8.LeadHasRoom` | src/uarte.rs:22 | in valid UTF-8, every byte that can lead a character is followed by all the bytes that character needs |
| `Utf8.EncodeCharDecodes` | src/uarte.rs:22 | the encoding of one character is a UTF8-char of the grammar, and the decoder reads back that character and its length, whatever follows |
| `Utf8.DecodeCharEncodes` | src/uarte.rs:22 | the bytes the decoder consumes for one character are exactly that character's encoding |
| `Utf8.DecodeCharFindsChar` | src/uarte.rs:22 | a UTF8-char at the front of the input is accepted by the decoder with its exact length |
| `Uarte.AsStr` | src/uarte.rs:21-27 | `as_str` returns `Ok` exactly when the whole five-byte buffer is well-formed UTF-8, and the text then encodes to exactly those bytes; otherwise it returns `Err("Block contains non-ascii characters!")` |
| `Uarte.AsStrRoundTrip` | src/uarte.rs:15-27 | any text whose encoding fills the five bytes reads back unchanged |
| `Uarte.DefaultBlockReads` | src/uarte.rs:14-27 | a default (all-zero) block reads as five NUL characters, not as an error |
| `Uarte.CutCharacterRejected` | src/uarte.rs:21-27 | a block that starts with a continuation byte or ends with a lead byte is reported with the fixed error |
| `Uarte.TruncatedCharacterRejected` | src/uarte.rs:21-27 | a block holding a lead byte at position `j` whose character needs more than the `5 - j` bytes left (a character cut after its first, second or third byte) is reported with the fixed error |
| `Uarte.NextSlot` | src/uarte.rs:47 | the cursor step `(i + 1) % 3` stays within the ring and always moves to a different slot |
| `Uarte.NextSlotCycles` | src/uarte.rs:47 | three steps return a cursor to its start after visiting all three slots |
| `Uarte.Cleared` | src/uarte.rs:124-130 | resetting one event flag clears that flag and leaves the other two as they were |
| `Uarte.Select` | src/uarte.rs:119-131 | the event handled is a pending one, and no pending event ranks before it (ENDRX, then RXSTARTED, then ERROR); no event is handled exactly when none is pending |
| `Uarte.Uarte0.constructor` | src/uarte.rs:38-45 | `new` starts both cursors at 0, with every block all-zero and not filled |
| `Uarte.Uarte0.UpdateRxdBufferLocation` | src/uarte.rs:46-56 | the write cursor becomes `(old + 1) % 3`. It panics with "UARTE buffer overflow!" exactly when the new block is filled, and in that case the DMA pointer keeps its old value. Otherwise the DMA pointer addresses the block under the new write cursor. The read cursor and all blocks are unchanged, and with no block filled it never panics |
| `Uarte.Uarte0.Next` | src/uarte.rs:57-61 | returns `as_str` of the block under the old read cursor and advances the read cursor to `(old + 1) % 3` whether or not decoding failed. The write cursor and all blocks and `filled` markers are unchanged |
| `Uarte.Firmware.constructor` | src/uarte.rs:113 | the instance static starts empty, and nothing has been printed |
| `Uarte.Firmware.Init` | src/uarte.rs:94-110 | sets the DMA byte count to the block capacity 5 and installs a fresh driver with both cursors at 0 and all blocks default. The DMA pointer then addresses the block under the write cursor, and STARTRX has been triggered once. The event flags and FLUSHRX are untouched |
| `Uarte.Firmware.Uarte0Uart0` | src/uarte.rs:115-134 | with no instance or no pending event nothing changes. Otherwise exactly the highest-priority pending event is handled and only its flag is cleared. ENDRX prints `next`'s text, or `"\nError: " + error + "\n"`, and moves only the read cursor. RXSTARTED behaves as `update_rxd_buffer_location`; after a panic its flag stays set. ERROR triggers FLUSHRX once and leaves cursors, DMA pointer and blocks untouched. No block ever changes, and a ring with no filled block stays that way without panicking |
| `Hardware.BeginTransfer` | src/uarte.rs:104-108 | the STARTRX task makes the transfer that begins write where `RXD.PTR` points at that moment, and raises RXSTARTED |
| `Hardware.CompleteTransfer` | src/uarte.rs:86-95 | a completed transfer writes its 5 bytes into the latched block and leaves that block's `filled` marker alone. It raises ENDRX, and the ENDRX→STARTRX shortcut begins the next transfer |
| `Hardware.Run` | src/uarte.rs:48-51 | after `init`, in any interleaving of transfers, line errors and interrupts, the overflow assertion never fires. At the end the DMA pointer still addresses the block under the write cursor, and no block is marked filled |

## Left out

- The peripheral configuration in `init` (src/uarte.rs:65-92 and 98) is not modelled: the enable bit, pin selection, baud rate, the shortcut bit, interrupt enables and the NVIC unmask. These are register writes with no logic. `CompleteTransfer` assumes the shortcut is enabled.
- The `critical_section::Mutex<RefCell<Option<Uarte0>>>` static and the `critical_section::with` wrappers are left out. Their role is mutual exclusion between interrupt and foreground code; here the instance is one sequential object (`Firmware.instance`).
- RTT output is an appended `string`. The text is kept as Unicode scalar values rather than as the bytes written to the channel.
- `Uarte.Firmware.Uarte0Uart0`: a panic is returned as `Outcome.Panic` with its message. The model does not include `panic_rtt_target`'s report or the halt that follows, so nothing stops a later call.
- The raw `u32` address written to `RXD.PTR` is modelled as the index of the addressed block (`DmaAddress`). Register widths (32-bit pointer, `MAXCNT` field) are not modelled; the values involved (slot indices below 3, a count of 5) fit them.
- `Hardware.CompleteTransfer` always writes a full `MAXCNT` bytes. Transfers cut short by STOPRX, and the timing between the hardware and the handler, are not modelled beyond the order of stimuli in `Hardware.Run`.
- `src/time.rs` (an RTC tick wrapper) and `src/main.rs` (the LED blink loop and runtime setup) are not part of this model.
- The design describes features the code does not have: a foreground `poll_next`, clearing `filled` on consumption, marking a block filled on ENDRX, and an `OverrunError` result. They are not modelled.
