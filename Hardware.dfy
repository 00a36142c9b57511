/**
 * The hardware side of reception, reduced to what the driver observes, and client
 * scenarios that drive the driver model through it.
 */
module Hardware {
  import opened Results
  import opened Utf8
  import opened Uarte

  /** TASKS_STARTRX takes effect: the transfer that begins latches RXD.PTR and RXSTARTED is raised. */
  method BeginTransfer(p: Peripheral)
    modifies p`transferTarget, p`eventsRxStarted
    ensures p.transferTarget == p.rxdPtr && p.eventsRxStarted
  {
    p.transferTarget := p.rxdPtr;
    p.eventsRxStarted := true;
  }

  /**
   * A transfer of RXD.MAXCNT bytes completes: the DMA engine writes them into the
   * latched block (the `filled` marker is a driver variable the DMA does not touch),
   * ENDRX is raised, and the ENDRX -> STARTRX shortcut begins the next transfer.
   */
  method CompleteTransfer(u: Uarte0, data: BlockBytes)
    requires u.Valid() && u.inner.rxdMaxCnt == BLOCK_CAPACITY
    requires u.inner.transferTarget.BlockAddress? && u.inner.transferTarget.slot < BUFFER_SLOTS_COUNT
    modifies u.buffer, u.inner`eventsEndRx, u.inner`transferTarget, u.inner`eventsRxStarted
    ensures var slot := old(u.inner.transferTarget.slot);
      u.buffer[..] == old(u.buffer[..])[slot := Block(data, old(u.buffer[slot].filled))]
    ensures u.inner.eventsEndRx && u.inner.eventsRxStarted && u.inner.transferTarget == u.inner.rxdPtr
    ensures old(u.NoBlockFilled()) ==> u.NoBlockFilled()
  {
    var slot := u.inner.transferTarget.slot;
    u.buffer[slot] := u.buffer[slot].(buffer := data);
    u.inner.eventsEndRx := true;
    BeginTransfer(u.inner);
  }

  /** The receiver detects a framing, parity, overrun or break condition. */
  method LineError(p: Peripheral)
    modifies p`eventsError
    ensures p.eventsError
  {
    p.eventsError := true;
  }

  const HELLO: BlockBytes := [0x48, 0x45, 0x4C, 0x4C, 0x4F]

  /**
   * One reception of "HELLO": block 0 is armed by `init`, RXSTARTED moves the DMA
   * target to block 1, the bytes land in block 0, and the next interrupt prints them
   * before the one after rotates the target to block 2.
   */
  method HelloScenario()
  {
    var p := new Peripheral.Reset();
    var fw := new Firmware();
    fw.Init(p);
    var u := fw.instance;
    assert p.rxdPtr == BlockAddress(0) && p.rxdMaxCnt == 5;

    BeginTransfer(p);
    var outcome := fw.Uarte0Uart0();
    assert u.writeOffset == 1 && p.rxdPtr == BlockAddress(1) && outcome == Continue;
    assert !p.eventsRxStarted && u.readOffset == 0;

    CompleteTransfer(u, HELLO);
    assert u.buffer[0] == Block(HELLO, false);
    assert Encode("HELLO") == HELLO;
    AsStrRoundTrip("HELLO");
    outcome := fw.Uarte0Uart0();
    assert fw.rtt == "HELLO" && u.readOffset == 1 && u.writeOffset == 1;
    assert !p.eventsEndRx && p.eventsRxStarted;

    outcome := fw.Uarte0Uart0();
    assert u.writeOffset == 2 && p.rxdPtr == BlockAddress(2) && outcome == Continue;
    assert fw.rtt == "HELLO" && u.buffer[0].buffer == HELLO && !u.buffer[0].filled;
  }

  /**
   * A two-byte character whose lead byte is the last byte of a block: the block is
   * reported as an error and the read cursor moves on all the same.
   */
  method CutCharacterScenario()
  {
    var p := new Peripheral.Reset();
    var fw := new Firmware();
    fw.Init(p);
    var u := fw.instance;
    BeginTransfer(p);
    var outcome := fw.Uarte0Uart0();
    assert u.writeOffset == 1 && u.readOffset == 0 && fw.rtt == [];

    var cut: BlockBytes := [0x61, 0x62, 0x63, 0x64, 0xC3];
    CompleteTransfer(u, cut);
    CutCharacterRejected(u.buffer[0]);
    assert AsStr(u.buffer[0]) == Err(NON_UTF8_ERROR);
    assert Select(p.Flags()) == Some(EndRx);
    outcome := fw.Uarte0Uart0();
    assert fw.rtt == Report(Err(NON_UTF8_ERROR));
    assert u.readOffset == 1 && u.writeOffset == 1 && p.eventsRxStarted;
  }

  /**
   * A line error while RXSTARTED is pending waits for the rotation, then only
   * triggers FLUSHRX; a further interrupt with nothing pending changes nothing.
   */
  method LineErrorScenario()
  {
    var p := new Peripheral.Reset();
    var fw := new Firmware();
    fw.Init(p);
    var u := fw.instance;
    BeginTransfer(p);
    LineError(p);
    assert Select(p.Flags()) == Some(RxStarted);
    var outcome := fw.Uarte0Uart0();
    assert u.writeOffset == 1 && p.tasksFlushRx == 0;
    assert Select(p.Flags()) == Some(Error);
    outcome := fw.Uarte0Uart0();
    assert p.tasksFlushRx == 1 && u.writeOffset == 1 && u.readOffset == 0;
    assert Select(p.Flags()).None?;
    outcome := fw.Uarte0Uart0();
    assert p.tasksFlushRx == 1 && u.writeOffset == 1 && fw.rtt == [];
  }

  /** What can happen between two steps of a run. */
  datatype Stimulus = StartReception | Receive(data: BlockBytes) | LineFault | Interrupt

  /**
   * Since nothing marks a block filled, the overflow assertion of
   * `update_rxd_buffer_location` cannot fire in any run after `init`, whatever the
   * hardware does and however the interrupts interleave with it.
   */
  method Run(stimuli: seq<Stimulus>) returns (fw: Firmware, outcomes: seq<Outcome>)
    ensures |outcomes| == |stimuli|
    ensures forall i :: 0 <= i < |outcomes| ==> outcomes[i] == Continue
    ensures fw.instance != null && fw.instance.Valid()
    ensures fw.instance.Armed() && fw.instance.NoBlockFilled()
  {
    var p := new Peripheral.Reset();
    fw := new Firmware();
    fw.Init(p);
    var u := fw.instance;
    outcomes := [];
    for n := 0 to |stimuli|
      invariant fw.instance == u && u.inner == p && fw.Valid()
      invariant p.rxdMaxCnt == BLOCK_CAPACITY && u.Armed() && u.NoBlockFilled()
      invariant p.transferTarget == Unset || (p.transferTarget.BlockAddress? && p.transferTarget.slot < BUFFER_SLOTS_COUNT)
      invariant |outcomes| == n
      invariant forall i :: 0 <= i < n ==> outcomes[i] == Continue
    {
      var outcome := Continue;
      match stimuli[n] {
        case StartReception =>
          BeginTransfer(p);
        case Receive(data) =>
          if p.transferTarget.BlockAddress? {
            CompleteTransfer(u, data);
          }
        case LineFault =>
          LineError(p);
        case Interrupt =>
          outcome := fw.Uarte0Uart0();
      }
      outcomes := outcomes + [outcome];
    }
  }
}
