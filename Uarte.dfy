/**
 * The UARTE0 receive driver: a ring of three five-byte blocks that the DMA engine
 * fills, two cursors over it, and the interrupt handler that rotates the DMA target
 * and decodes received blocks.
 *
 * The peripheral is abstracted to the registers the driver touches: the DMA pointer
 * (as the index of the block it addresses), the DMA byte count, the three event flags
 * and counters for the STARTRX and FLUSHRX tasks. The RTT up channel is a string the
 * handler appends to.
 */
module Uarte {
  import opened Results
  import opened Utf8

  /** The number of blocks in the ring. */
  const BUFFER_SLOTS_COUNT: nat := 3

  /** The number of bytes in one block. */
  const BLOCK_CAPACITY: nat := 5

  /** The error `as_str` returns for a block that is not UTF-8. */
  const NON_UTF8_ERROR: string := "Block contains non-ascii characters!"

  /** The message of the assertion that guards the DMA target against overrun. */
  const OVERFLOW_PANIC: string := "UARTE buffer overflow!"

  type BlockBytes = s: seq<byte> | |s| == BLOCK_CAPACITY witness [0, 0, 0, 0, 0]

  /** One DMA target: five raw bytes and a marker for a block that awaits reading. */
  datatype Block = Block(buffer: BlockBytes, filled: bool)

  /** `Block::default()`: all bytes zero, not filled. */
  const DEFAULT_BLOCK: Block := Block([0, 0, 0, 0, 0], false)

  /**
   * `Block::as_str`: the whole five-byte buffer read as UTF-8 text, or the fixed error.
   * Trailing bytes the sender did not write are validated like any other.
   */
  function AsStr(b: Block): (r: Result<string, string>)
    ensures r.Ok? <==> WellFormed(b.buffer)
    ensures r.Ok? ==> Encode(r.value) == b.buffer
    ensures r.Err? ==> r.error == NON_UTF8_ERROR
  {
    DecodeAcceptsWellFormed(b.buffer);
    match Decode(b.buffer)
    case Some(text) =>
      EncodeDecode(b.buffer);
      Ok(text)
    case None => Err(NON_UTF8_ERROR)
  }

  /** Any valid five-byte text placed in a block reads back unchanged. */
  lemma AsStrRoundTrip(text: string)
    requires |Encode(text)| == BLOCK_CAPACITY
    ensures AsStr(Block(Encode(text), false)) == Ok(text)
  {
    DecodeEncode(text);
  }

  /** A block that is still all zeros reads as five NUL characters. */
  lemma DefaultBlockReads()
    ensures AsStr(DEFAULT_BLOCK) == Ok("\0\0\0\0\0")
  {
    assert Encode("\0\0\0\0\0") == DEFAULT_BLOCK.buffer;
    AsStrRoundTrip("\0\0\0\0\0");
  }

  /**
   * A character cut by the block boundary (a continuation byte first, or a lead
   * byte of a longer character last) makes the whole block an error.
   */
  lemma CutCharacterRejected(b: Block)
    requires Tail(b.buffer[0]) || b.buffer[BLOCK_CAPACITY - 1] as int >= 0xC0
    ensures AsStr(b) == Err(NON_UTF8_ERROR)
  {
    if WellFormed(b.buffer) {
      WellFormedEnds(b.buffer);
    }
  }

  /**
   * A character whose lead byte sits at `j` but which needs more bytes than the
   * block has left (a character cut by the end of the block after any of its
   * bytes) makes the whole block an error.
   */
  lemma TruncatedCharacterRejected(b: Block, j: nat)
    requires j < BLOCK_CAPACITY && Width(b.buffer[j]) > BLOCK_CAPACITY - j
    ensures AsStr(b) == Err(NON_UTF8_ERROR)
  {
    if WellFormed(b.buffer) {
      LeadHasRoom(b.buffer, j);
    }
  }

  /** The slot after `i` in the ring. */
  function NextSlot(i: nat): (j: nat)
    requires i < BUFFER_SLOTS_COUNT
    ensures j < BUFFER_SLOTS_COUNT && j != i
  {
    (i + 1) % BUFFER_SLOTS_COUNT
  }

  /** Three steps around the ring come back to the start, visiting every slot. */
  lemma NextSlotCycles(i: nat)
    requires i < BUFFER_SLOTS_COUNT
    ensures NextSlot(NextSlot(NextSlot(i))) == i
    ensures {i, NextSlot(i), NextSlot(NextSlot(i))} == {0, 1, 2}
  {
  }

  // ---------------------------------------------------------------------------
  // Events and their priority
  // ---------------------------------------------------------------------------

  datatype Event = EndRx | RxStarted | Error

  /** Handling order: ENDRX first, then RXSTARTED, then ERROR. */
  function Rank(e: Event): nat {
    match e
    case EndRx => 0
    case RxStarted => 1
    case Error => 2
  }

  /** The three event registers of the peripheral. */
  datatype EventFlags = EventFlags(endRx: bool, rxStarted: bool, error: bool)

  predicate Pending(f: EventFlags, e: Event) {
    match e
    case EndRx => f.endRx
    case RxStarted => f.rxStarted
    case Error => f.error
  }

  /** The flags with the flag of `e` reset and the others as they were. */
  function Cleared(f: EventFlags, e: Event): (g: EventFlags)
    ensures !Pending(g, e)
    ensures forall other: Event :: other != e ==> Pending(g, other) == Pending(f, other)
  {
    match e
    case EndRx => f.(endRx := false)
    case RxStarted => f.(rxStarted := false)
    case Error => f.(error := false)
  }

  /** The event one interrupt handles: the pending event of highest priority, if any. */
  function Select(f: EventFlags): (r: Option<Event>)
    ensures r.None? <==> forall e: Event :: !Pending(f, e)
    ensures r.Some? ==> Pending(f, r.value)
    ensures r.Some? ==> forall e: Event :: Pending(f, e) ==> Rank(r.value) <= Rank(e)
  {
    if f.endRx then assert Pending(f, EndRx); Some(EndRx)
    else if f.rxStarted then assert Pending(f, RxStarted); Some(RxStarted)
    else if f.error then assert Pending(f, Error); Some(Error)
    else None
  }

  // ---------------------------------------------------------------------------
  // The peripheral
  // ---------------------------------------------------------------------------

  /** What the DMA pointer register addresses: nothing yet, or one block of the ring. */
  datatype DmaAddress = Unset | BlockAddress(slot: nat)

  /** The UARTE0 registers the driver uses. */
  class Peripheral {
    /** RXD.PTR: where the next reception writes. */
    var rxdPtr: DmaAddress
    /** RXD.MAXCNT: how many bytes one reception writes. */
    var rxdMaxCnt: nat
    /** EVENTS_ENDRX, EVENTS_RXSTARTED, EVENTS_ERROR. */
    var eventsEndRx: bool
    var eventsRxStarted: bool
    var eventsError: bool
    /** How often TASKS_STARTRX and TASKS_FLUSHRX have been triggered. */
    var tasksStartRx: nat
    var tasksFlushRx: nat
    /** Hardware-internal: the block the reception under way writes, latched at STARTRX. */
    var transferTarget: DmaAddress

    /** The peripheral as it comes out of reset. */
    constructor Reset()
      ensures rxdPtr == Unset && rxdMaxCnt == 0 && transferTarget == Unset
      ensures !eventsEndRx && !eventsRxStarted && !eventsError
      ensures tasksStartRx == 0 && tasksFlushRx == 0
    {
      rxdPtr, rxdMaxCnt, transferTarget := Unset, 0, Unset;
      eventsEndRx, eventsRxStarted, eventsError := false, false, false;
      tasksStartRx, tasksFlushRx := 0, 0;
    }

    function Flags(): EventFlags
      reads this
    {
      EventFlags(eventsEndRx, eventsRxStarted, eventsError)
    }
  }

  // ---------------------------------------------------------------------------
  // The driver
  // ---------------------------------------------------------------------------

  /** `Uarte0`: the peripheral, the ring of blocks and its two cursors. */
  class Uarte0 {
    const inner: Peripheral
    const buffer: array<Block>
    var writeOffset: nat
    var readOffset: nat

    ghost predicate Valid()
      reads this
    {
      buffer.Length == BUFFER_SLOTS_COUNT &&
      writeOffset < BUFFER_SLOTS_COUNT && readOffset < BUFFER_SLOTS_COUNT
    }

    /** The DMA pointer addresses the block under the write cursor. */
    predicate Armed()
      reads this, inner
    {
      inner.rxdPtr == BlockAddress(writeOffset)
    }

    /** No block is marked filled. */
    ghost predicate NoBlockFilled()
      reads this, buffer
    {
      forall i :: 0 <= i < buffer.Length ==> !buffer[i].filled
    }

    /** `Uarte0::new`: both cursors at slot 0 and every block the default block. */
    constructor (peripheral: Peripheral)
      ensures Valid() && inner == peripheral && fresh(buffer)
      ensures writeOffset == 0 && readOffset == 0
      ensures buffer[..] == [DEFAULT_BLOCK, DEFAULT_BLOCK, DEFAULT_BLOCK]
      ensures NoBlockFilled()
    {
      inner := peripheral;
      buffer := new Block[BUFFER_SLOTS_COUNT](_ => DEFAULT_BLOCK);
      writeOffset, readOffset := 0, 0;
    }

    /**
     * `update_rxd_buffer_location`: advance the write cursor, refuse (panic) if the
     * block it lands on is filled, and only then point the DMA at that block.
     */
    method UpdateRxdBufferLocation() returns (outcome: Outcome)
      requires Valid()
      modifies this`writeOffset, inner`rxdPtr
      ensures Valid()
      ensures writeOffset == NextSlot(old(writeOffset))
      ensures outcome == if buffer[writeOffset].filled then Panic(OVERFLOW_PANIC) else Continue
      ensures outcome.Continue? ==> Armed()
      ensures outcome.Panic? ==> inner.rxdPtr == old(inner.rxdPtr)
      ensures NoBlockFilled() ==> outcome.Continue?
      ensures readOffset == old(readOffset) && buffer[..] == old(buffer[..])
    {
      writeOffset := (writeOffset + 1) % BUFFER_SLOTS_COUNT;
      if buffer[writeOffset].filled {
        return Panic(OVERFLOW_PANIC);
      }
      inner.rxdPtr := BlockAddress(writeOffset);
      outcome := Continue;
    }

    /**
     * `next`: decode the block under the read cursor and advance the cursor, whether
     * or not decoding succeeded. The `filled` marker is neither checked nor cleared.
     */
    method Next() returns (r: Result<string, string>)
      requires Valid()
      modifies this`readOffset
      ensures Valid()
      ensures r == AsStr(buffer[old(readOffset)])
      ensures readOffset == NextSlot(old(readOffset))
      ensures writeOffset == old(writeOffset) && buffer[..] == old(buffer[..])
    {
      r := AsStr(buffer[readOffset]);
      readOffset := (readOffset + 1) % BUFFER_SLOTS_COUNT;
    }
  }

  /** What the handler prints over RTT for the result of `next`. */
  function Report(r: Result<string, string>): string {
    match r
    case Ok(chars) => chars
    case Err(error) => "\nError: " + error + "\n"
  }

  // ---------------------------------------------------------------------------
  // The program-wide state: the driver instance and the RTT channel
  // ---------------------------------------------------------------------------

  /** The `UARTE0_INSTANCE` static, which holds the driver once `init` ran, and the RTT output. */
  class Firmware {
    var instance: Uarte0?
    var rtt: string

    constructor ()
      ensures instance == null && rtt == []
    {
      instance, rtt := null, [];
    }

    ghost predicate Valid()
      reads this, instance
    {
      instance != null ==> instance.Valid()
    }

    /** The objects the interrupt handler may change. */
    ghost function InstanceFrame(): set<object>
      reads this, instance
    {
      if instance == null then {} else {instance, instance.inner}
    }

    /**
     * The part of `init` that concerns the ring: set the DMA byte count, build the
     * driver, point the DMA at the block under the write cursor and start reception.
     */
    method Init(peripheral: Peripheral)
      modifies this`instance, peripheral
      ensures Valid() && instance != null && fresh(instance) && fresh(instance.buffer)
      ensures instance.inner == peripheral
      ensures instance.writeOffset == 0 && instance.readOffset == 0
      ensures instance.buffer[..] == [DEFAULT_BLOCK, DEFAULT_BLOCK, DEFAULT_BLOCK]
      ensures peripheral.rxdMaxCnt == BLOCK_CAPACITY == |instance.buffer[instance.writeOffset].buffer|
      ensures instance.Armed()
      ensures peripheral.tasksStartRx == old(peripheral.tasksStartRx) + 1
      ensures peripheral.Flags() == old(peripheral.Flags())
      ensures peripheral.tasksFlushRx == old(peripheral.tasksFlushRx)
      ensures peripheral.transferTarget == old(peripheral.transferTarget)
    {
      peripheral.rxdMaxCnt := 5;
      var u := new Uarte0(peripheral);
      instance := u;
      u.inner.rxdPtr := BlockAddress(u.writeOffset);
      u.inner.tasksStartRx := u.inner.tasksStartRx + 1;
    }

    /**
     * `UARTE0_UART0`: handle the one pending event of highest priority and reset its
     * flag. ENDRX decodes and prints the block under the read cursor; RXSTARTED moves
     * the DMA target (a panic leaves the flag set); ERROR triggers FLUSHRX.
     */
    method Uarte0Uart0() returns (outcome: Outcome)
      requires Valid()
      modifies this`rtt, InstanceFrame()
      ensures Valid()
      ensures instance == null ==> rtt == old(rtt) && outcome == Continue
      ensures instance != null ==>
        instance.buffer[..] == old(instance.buffer[..]) &&
        instance.inner.rxdMaxCnt == old(instance.inner.rxdMaxCnt) &&
        instance.inner.tasksStartRx == old(instance.inner.tasksStartRx) &&
        instance.inner.transferTarget == old(instance.inner.transferTarget)
      ensures instance != null && old(Select(instance.inner.Flags())).None? ==>
        unchanged(instance, instance.inner) && rtt == old(rtt) && outcome == Continue
      ensures instance != null && old(Select(instance.inner.Flags())) == Some(EndRx) ==>
        rtt == old(rtt) + Report(AsStr(instance.buffer[old(instance.readOffset)])) &&
        instance.readOffset == NextSlot(old(instance.readOffset)) &&
        instance.writeOffset == old(instance.writeOffset) &&
        instance.inner.rxdPtr == old(instance.inner.rxdPtr) &&
        instance.inner.Flags() == Cleared(old(instance.inner.Flags()), EndRx) &&
        instance.inner.tasksFlushRx == old(instance.inner.tasksFlushRx) &&
        outcome == Continue
      ensures instance != null && old(Select(instance.inner.Flags())) == Some(RxStarted) ==>
        rtt == old(rtt) &&
        instance.writeOffset == NextSlot(old(instance.writeOffset)) &&
        instance.readOffset == old(instance.readOffset) &&
        instance.inner.tasksFlushRx == old(instance.inner.tasksFlushRx) &&
        outcome == (if instance.buffer[instance.writeOffset].filled then Panic(OVERFLOW_PANIC) else Continue) &&
        (outcome.Continue? ==>
          instance.Armed() && instance.inner.Flags() == Cleared(old(instance.inner.Flags()), RxStarted)) &&
        (outcome.Panic? ==>
          instance.inner.rxdPtr == old(instance.inner.rxdPtr) && instance.inner.Flags() == old(instance.inner.Flags()))
      ensures instance != null && old(Select(instance.inner.Flags())) == Some(Error) ==>
        rtt == old(rtt) &&
        instance.writeOffset == old(instance.writeOffset) &&
        instance.readOffset == old(instance.readOffset) &&
        instance.inner.rxdPtr == old(instance.inner.rxdPtr) &&
        instance.inner.Flags() == Cleared(old(instance.inner.Flags()), Error) &&
        instance.inner.tasksFlushRx == old(instance.inner.tasksFlushRx) + 1 &&
        outcome == Continue
      ensures instance != null && old(instance.NoBlockFilled()) ==> instance.NoBlockFilled() && outcome == Continue
    {
      outcome := Continue;
      if instance != null {
        var u := instance;
        if u.inner.eventsEndRx {
          var chars := u.Next();
          rtt := rtt + Report(chars);
          u.inner.eventsEndRx := false;
        } else if u.inner.eventsRxStarted {
          outcome := u.UpdateRxdBufferLocation();
          if outcome.Continue? {
            u.inner.eventsRxStarted := false;
          }
        } else if u.inner.eventsError {
          u.inner.tasksFlushRx := u.inner.tasksFlushRx + 1;
          u.inner.eventsError := false;
        }
      }
    }
  }
}
