/** The SPI, GPIO and interrupt calls of the firmware drivers, recorded as a log of bus events, and
    the chip-select windows (transactions) that a log contains. */
module SpiBus {
  import opened Bytes

  /** A byte the controller clocks out: a value the driver wrote into its transmit buffer, or one it
      never set (a `NULL` transmit buffer, or buffer bytes left uninitialised). */
  datatype TxByte = Sent(b: byte) | Unset

  /** The lines of the TCA9534 I/O expander the drivers switch. */
  datatype ExpanderLine = FpgaMode0 | FpgaVcore | FpgaVddio | VolMeasure

  /** One call into the board: `bflb_spi_init` with its clock in MHz, SPI mode and chip-select
      interval; `bflb_irq_disable`/`bflb_irq_enable` of the GPIO interrupt; chip select driven low
      or high by hand; one `bflb_spi_poll_exchange` clocking out `tx`; `bflb_mtimer_delay_ms`;
      `tca9534_pin_control`. */
  datatype BusEvent =
    | SpiConfig(mhz: nat, mode: nat, csInterval: nat)
    | IrqDisable
    | IrqEnable
    | CsLow
    | CsHigh
    | Xfer(tx: seq<TxByte>)
    | DelayMs(ms: nat)
    | Expander(line: ExpanderLine, level: bool)

  /** Bytes the driver set, as clocked out. */
  function SentAll(b: seq<byte>): (t: seq<TxByte>)
    ensures |t| == |b|
    ensures forall i :: 0 <= i < |b| ==> t[i] == Sent(b[i])
  {
    seq(|b|, i requires 0 <= i < |b| => Sent(b[i]))
  }

  /** `n` bytes the driver never set. */
  function Unsent(n: nat): (t: seq<TxByte>)
    ensures |t| == n
    ensures forall i :: 0 <= i < n ==> t[i] == Unset
  {
    seq(n, _ => Unset)
  }

  /** Chunks back to back. */
  function Join(chunks: seq<seq<TxByte>>): seq<TxByte>
    decreases |chunks|
  {
    if chunks == [] then [] else chunks[0] + Join(chunks[1..])
  }

  /** One exchange per chunk, in order. */
  function Xfers(chunks: seq<seq<TxByte>>): (log: seq<BusEvent>)
    ensures |log| == |chunks|
    ensures forall i :: 0 <= i < |chunks| ==> log[i] == Xfer(chunks[i])
  {
    seq(|chunks|, i requires 0 <= i < |chunks| => Xfer(chunks[i]))
  }

  /** The bytes clocked out in each completed chip-select window of `log`, in order; `open` holds
      what the window open at the start of `log` has clocked so far, if one is open. */
  function Windows(log: seq<BusEvent>, open: Option<seq<TxByte>>): seq<seq<TxByte>>
    decreases |log|
  {
    if log == [] then []
    else match log[0]
      case CsLow => Windows(log[1..], Some(if open.Some? then open.value else []))
      case CsHigh => (if open.Some? then [open.value] else []) + Windows(log[1..], None)
      case Xfer(tx) => Windows(log[1..], if open.Some? then Some(open.value + tx) else None)
      case _ => Windows(log[1..], open)
  }

  /** Inside a window, exchanges add their bytes to it. */
  lemma {:induction false} WindowsOfXfers(chunks: seq<seq<TxByte>>, cur: seq<TxByte>, rest: seq<BusEvent>)
    ensures Windows(Xfers(chunks) + rest, Some(cur)) == Windows(rest, Some(cur + Join(chunks)))
    decreases |chunks|
  {
    if chunks == [] {
      assert Xfers(chunks) + rest == rest;
      assert cur + [] == cur;
    } else {
      var log := Xfers(chunks) + rest;
      assert log[0] == Xfer(chunks[0]);
      assert log[1..] == Xfers(chunks[1..]) + rest;
      WindowsOfXfers(chunks[1..], cur + chunks[0], rest);
      assert cur + chunks[0] + Join(chunks[1..]) == cur + Join(chunks);
    }
  }

  /** A driver transaction: one dummy byte with chip select high, chip select low, the exchanges,
      chip select high. */
  function Transaction(chunks: seq<seq<TxByte>>): (log: seq<BusEvent>)
    ensures |log| == |chunks| + 3
  {
    [Xfer([Unset]), CsLow] + Xfers(chunks) + [CsHigh]
  }

  /** A transaction is one window holding the bytes of all its exchanges; the dummy byte is outside
      it. */
  lemma WindowsOfTransaction(chunks: seq<seq<TxByte>>, rest: seq<BusEvent>)
    ensures Windows(Transaction(chunks) + rest, None) == [Join(chunks)] + Windows(rest, None)
  {
    var log := Transaction(chunks) + rest;
    var tail := [CsHigh] + rest;
    assert log[0] == Xfer([Unset]);
    assert log[1..] == [CsLow] + Xfers(chunks) + tail;
    assert log[1..][1..] == Xfers(chunks) + tail;
    assert Windows(log, None) == Windows(log[1..], None);
    assert Windows(log[1..], None) == Windows(Xfers(chunks) + tail, Some([]));
    WindowsOfXfers(chunks, [], tail);
    assert tail[0] == CsHigh && tail[1..] == rest;
    assert [] + Join(chunks) == Join(chunks);
  }

  /** Events that neither touch chip select nor clock anything leave the windows alone. */
  lemma {:induction false} WindowsSkipQuiet(quiet: seq<BusEvent>, rest: seq<BusEvent>)
    requires forall i :: 0 <= i < |quiet| ==> !quiet[i].CsLow? && !quiet[i].Xfer?
    ensures Windows(quiet + rest, None) == Windows(rest, None)
    decreases |quiet|
  {
    if quiet == [] {
      assert quiet + rest == rest;
    } else {
      var log := quiet + rest;
      assert log[0] == quiet[0] && log[1..] == quiet[1..] + rest;
      WindowsSkipQuiet(quiet[1..], rest);
      assert Windows(log, None) == Windows(log[1..], None) by {
        if log[0].CsHigh? {
          assert [] + Windows(log[1..], None) == Windows(log[1..], None);
        }
      }
    }
  }

  /** Chip select is only ever driven low right after a dummy byte. */
  predicate DummyBeforeSelect(log: seq<BusEvent>)
  {
    forall i :: 0 <= i < |log| && log[i] == CsLow ==> i >= 1 && log[i - 1] == Xfer([Unset])
  }

  lemma TransactionHasDummy(chunks: seq<seq<TxByte>>)
    ensures DummyBeforeSelect(Transaction(chunks))
  {
  }

  lemma DummyBeforeSelectAppend(a: seq<BusEvent>, b: seq<BusEvent>)
    requires DummyBeforeSelect(a) && DummyBeforeSelect(b)
    ensures DummyBeforeSelect(a + b)
  {
    var log := a + b;
    forall i | 0 <= i < |log| && log[i] == CsLow ensures i >= 1 && log[i - 1] == Xfer([Unset]) {
      if i >= |a| {
        assert log[i] == b[i - |a|];
        assert i - |a| >= 1;
        assert log[i - 1] == b[i - 1 - |a|];
      }
    }
  }
}
