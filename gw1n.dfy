/** gw1n.c: the Gowin GW1N FPGA is configured over its slave SPI port on SPI0 (20 MHz, mode 0), with
    chip select on GPIO 28 driven by hand. Every transaction is one dummy byte with chip select high,
    then chip select low, the exchanges, chip select high. */
module Gw1n {
  import opened Bytes
  import opened SpiBus

  /** The command reading the ID code, and the ID code of the expected device. */
  const READ_ID_CODE: nat := 0x1100_0000
  const GW1N_ID_CODE: nat := 0x0900_281B
  /** `gowin_write_cmd2` arguments: write enable and write disable; `gowin_write_cmd1`: no-op. */
  const WRITE_ENABLE: nat := 0x1500
  const WRITE_DISABLE: nat := 0x3A00
  const NOP: byte := 0x02
  /** The first byte of a bitstream download. */
  const WRITE_DATA: byte := 0x3B

  /** The eight bytes `gowin_read` clocks out: the command big-endian in `txData[0..4]`, and
      `txData[4..8]`, which it never sets. */
  function ReadTx(cmd: nat): (tx: seq<TxByte>)
    requires IsU32(cmd)
    ensures |tx| == 8
  {
    SentAll(EncodeU32Be(cmd)) + Unsent(4)
  }

  /** `gowin_write_cmd2`: the high byte, then the low byte. */
  function Cmd2Tx(cmd: nat): (tx: seq<TxByte>)
    requires cmd < TWO_16
    ensures |tx| == 2 && tx[0].Sent? && tx[1].Sent? && tx[0].b * 256 + tx[1].b == cmd
  {
    SentAll([cmd / 256, cmd % 256])
  }

  /** `gowin_spi0_gpio_init` drives chip select high; `gowin_spi0_init(20)` sets 20 MHz, mode 0 and
      no chip-select interval. */
  function SetupTrace(): seq<BusEvent>
  {
    [CsHigh, SpiConfig(20, 0, 0)]
  }

  /** The bus events of `gowin_fpga_config` when the ID read returns `id`. */
  function ConfigTrace(id: nat, image: seq<byte>): seq<BusEvent>
  {
    SetupTrace() + Transaction([ReadTx(READ_ID_CODE)]) +
    (if id != GW1N_ID_CODE then [] else WritesTrace(image))
  }

  lemma JoinOne(a: seq<TxByte>)
    ensures Join([a]) == a
  {
    assert [a][1..] == [];
    assert a + [] == a;
  }

  lemma JoinTwo(a: seq<TxByte>, b: seq<TxByte>)
    ensures Join([a, b]) == a + b
  {
    assert [a, b][1..] == [b];
    JoinOne(b);
  }

  /** What the FPGA receives while selected: the ID read; then, only for the expected ID code, write
      enable, the bitstream behind the write command in a single selection, write disable and a
      no-op, in that order. A wrong ID code stops everything after the read. */
  lemma ConfigWindows(id: nat, image: seq<byte>)
    ensures Windows(ConfigTrace(id, image), None) ==
              [ReadTx(READ_ID_CODE)] +
              (if id != GW1N_ID_CODE then []
               else [Cmd2Tx(WRITE_ENABLE), [Sent(WRITE_DATA)] + SentAll(image), Cmd2Tx(WRITE_DISABLE), [Sent(NOP)]])
  {
    var read := Transaction([ReadTx(READ_ID_CODE)]);
    var writes := if id != GW1N_ID_CODE then []
                  else WritesTrace(image);
    assert ConfigTrace(id, image) == SetupTrace() + (read + writes);
    WindowsSkipQuiet(SetupTrace(), read + writes);
    WindowsOfTransaction([ReadTx(READ_ID_CODE)], writes);
    JoinOne(ReadTx(READ_ID_CODE));
    if id != GW1N_ID_CODE {
      assert Windows(writes, None) == [];
    } else {
      WritesWindows(image);
    }
  }

  function WritesTrace(image: seq<byte>): seq<BusEvent>
  {
    Transaction([Cmd2Tx(WRITE_ENABLE)]) + Transaction([SentAll([WRITE_DATA]), SentAll(image)]) +
    Transaction([Cmd2Tx(WRITE_DISABLE)]) + Transaction([SentAll([NOP])]) + [DelayMs(10)]
  }

  lemma WritesWindows(image: seq<byte>)
    ensures Windows(WritesTrace(image), None) ==
              [Cmd2Tx(WRITE_ENABLE), [Sent(WRITE_DATA)] + SentAll(image), Cmd2Tx(WRITE_DISABLE), [Sent(NOP)]]
  {
    var t1 := Transaction([Cmd2Tx(WRITE_ENABLE)]);
    var t2 := Transaction([SentAll([WRITE_DATA]), SentAll(image)]);
    var t3 := Transaction([Cmd2Tx(WRITE_DISABLE)]);
    var t4 := Transaction([SentAll([NOP])]);
    assert WritesTrace(image) == t1 + (t2 + (t3 + (t4 + [DelayMs(10)])));
    WindowsOfTransaction([Cmd2Tx(WRITE_ENABLE)], t2 + (t3 + (t4 + [DelayMs(10)])));
    WindowsOfTransaction([SentAll([WRITE_DATA]), SentAll(image)], t3 + (t4 + [DelayMs(10)]));
    WindowsOfTransaction([Cmd2Tx(WRITE_DISABLE)], t4 + [DelayMs(10)]);
    WindowsOfTransaction([SentAll([NOP])], [DelayMs(10)]);
    JoinOne(Cmd2Tx(WRITE_ENABLE));
    JoinTwo(SentAll([WRITE_DATA]), SentAll(image));
    JoinOne(Cmd2Tx(WRITE_DISABLE));
    JoinOne(SentAll([NOP]));
    assert Windows([DelayMs(10)], None) == [] by {
      assert [DelayMs(10)][1..] == [];
    }
    assert SentAll([NOP]) == [Sent(NOP)];
    assert SentAll([WRITE_DATA]) == [Sent(WRITE_DATA)];
  }

  /** Chip select is never driven low without a dummy byte just before it. */
  lemma ConfigDummies(id: nat, image: seq<byte>)
    ensures DummyBeforeSelect(ConfigTrace(id, image))
  {
    var read := Transaction([ReadTx(READ_ID_CODE)]);
    var writes := if id != GW1N_ID_CODE then []
                  else WritesTrace(image);
    if id == GW1N_ID_CODE {
      WritesDummies(image);
    }
    TransactionHasDummy([ReadTx(READ_ID_CODE)]);
    DummyBeforeSelectAppend(read, writes);
    DummyBeforeSelectAppend(SetupTrace(), read + writes);
    assert ConfigTrace(id, image) == SetupTrace() + (read + writes);
  }

  lemma WritesDummies(image: seq<byte>)
    ensures DummyBeforeSelect(WritesTrace(image))
  {
    var t1 := Transaction([Cmd2Tx(WRITE_ENABLE)]);
    var t2 := Transaction([SentAll([WRITE_DATA]), SentAll(image)]);
    var t3 := Transaction([Cmd2Tx(WRITE_DISABLE)]);
    var t4 := Transaction([SentAll([NOP])]);
    TransactionHasDummy([Cmd2Tx(WRITE_ENABLE)]);
    TransactionHasDummy([SentAll([WRITE_DATA]), SentAll(image)]);
    TransactionHasDummy([Cmd2Tx(WRITE_DISABLE)]);
    TransactionHasDummy([SentAll([NOP])]);
    DummyBeforeSelectAppend(t4, [DelayMs(10)]);
    DummyBeforeSelectAppend(t3, t4 + [DelayMs(10)]);
    DummyBeforeSelectAppend(t2, t3 + (t4 + [DelayMs(10)]));
    DummyBeforeSelectAppend(t1, t2 + (t3 + (t4 + [DelayMs(10)])));
    assert t1 + t2 + t3 + t4 + [DelayMs(10)] == t1 + (t2 + (t3 + (t4 + [DelayMs(10)])));
  }

  class Driver {
    /** Everything the driver has done on the bus so far, oldest first. */
    var log: seq<BusEvent>

    constructor ()
      ensures log == []
    {
      log := [];
    }

    /** `gowin_power_on`: mode pin, then core supply, then I/O supply. */
    method PowerOn()
      modifies this`log
      ensures log == old(log) + [Expander(FpgaMode0, true), Expander(FpgaVcore, true), Expander(FpgaVddio, true)]
    {
      log := log + [Expander(FpgaMode0, true)];
      log := log + [Expander(FpgaVcore, true)];
      log := log + [Expander(FpgaVddio, true)];
    }

    /** `gowin_power_off`: mode pin, then the supplies in the reverse order of power-on. */
    method PowerOff()
      modifies this`log
      ensures log == old(log) + [Expander(FpgaMode0, false), Expander(FpgaVddio, false), Expander(FpgaVcore, false)]
    {
      log := log + [Expander(FpgaMode0, false)];
      log := log + [Expander(FpgaVddio, false)];
      log := log + [Expander(FpgaVcore, false)];
    }

    /** `gowin_spi0_gpio_init`: chip select becomes an output, driven high. */
    method SpiGpioInit()
      modifies this`log
      ensures log == old(log) + [CsHigh]
    {
      log := log + [CsHigh];
    }

    /** `gowin_spi0_init(baudmhz)`. */
    method SpiInit(baudMhz: byte)
      modifies this`log
      ensures log == old(log) + [SpiConfig(baudMhz, 0, 0)]
    {
      log := log + [SpiConfig(baudMhz, 0, 0)];
    }

    /** `spi_dummy_clk(n_clk)`: one byte from a `NULL` buffer, whatever `n_clk` asks for. */
    method SpiDummyClk(nClk: byte)
      modifies this`log
      ensures log == old(log) + [Xfer([Unset])]
    {
      log := log + [Xfer([Unset])];
    }

    /** `gowin_read(cmd)`, `miso` being the eight bytes the FPGA clocks back; the answer is the
        big-endian value of the last four. */
    method Read(cmd: nat, miso: seq<byte>) returns (ret: nat)
      requires IsU32(cmd) && |miso| == 8
      modifies this`log
      ensures log == old(log) + Transaction([ReadTx(cmd)])
      ensures ret == U32Be(miso[4..8])
    {
      var tx := new TxByte[8](_ => Unset);
      tx[0] := Sent(cmd / 0x100_0000);
      tx[1] := Sent((cmd / 0x1_0000) % 0x100);
      tx[2] := Sent((cmd / 0x100) % 0x100);
      tx[3] := Sent(cmd % 0x100);
      SpiDummyClk(4);
      log := log + [CsLow];
      assert tx[..] == ReadTx(cmd);
      log := log + [Xfer(tx[..])];
      var rx := miso;
      log := log + [CsHigh];
      ret := 0x100_0000 * (rx[4] as int) + 0x1_0000 * (rx[5] as int) + 0x100 * (rx[6] as int) + rx[7] as int;
    }

    /** `gowin_write_cmd1(cmd)`. */
    method WriteCmd1(cmd: byte)
      modifies this`log
      ensures log == old(log) + Transaction([SentAll([cmd])])
    {
      SpiDummyClk(1);
      log := log + [CsLow];
      assert SentAll([cmd]) == [Sent(cmd)];
      log := log + [Xfer([Sent(cmd)])];
      log := log + [CsHigh];
    }

    /** `gowin_write_cmd2(cmd)`: high byte first. */
    method WriteCmd2(cmd: nat)
      requires cmd < TWO_16
      modifies this`log
      ensures log == old(log) + Transaction([Cmd2Tx(cmd)])
    {
      var tx := new byte[2];
      tx[0] := cmd / 256;
      tx[1] := cmd % 256;
      SpiDummyClk(1);
      log := log + [CsLow];
      assert SentAll(tx[..]) == Cmd2Tx(cmd);
      log := log + [Xfer(SentAll(tx[..]))];
      log := log + [CsHigh];
    }

    /** `gowin_download_bitstream(data, len)`: the write command and then the whole image, inside one
        chip-select window. */
    method DownloadBitstream(data: seq<byte>)
      modifies this`log
      ensures log == old(log) + Transaction([SentAll([WRITE_DATA]), SentAll(data)])
    {
      SpiDummyClk(1);
      log := log + [CsLow];
      log := log + [Xfer(SentAll([WRITE_DATA]))];
      log := log + [Xfer(SentAll(data))];
      log := log + [CsHigh];
    }

    /** `gowin_fpga_config`, `idReply` being what the FPGA clocks back to the ID read and `image`
        the bitstream compiled into the firmware; says whether programming went ahead. */
    method FpgaConfig(idReply: seq<byte>, image: seq<byte>) returns (programmed: bool)
      requires |idReply| == 8
      modifies this`log
      ensures programmed <==> U32Be(idReply[4..8]) == GW1N_ID_CODE
      ensures log == old(log) + ConfigTrace(U32Be(idReply[4..8]), image)
    {
      ghost var log0 := log;
      SpiGpioInit();
      SpiInit(20);
      var data := Read(READ_ID_CODE, idReply);
      ghost var read := Transaction([ReadTx(READ_ID_CODE)]);
      assert log == log0 + (SetupTrace() + read);
      if data != GW1N_ID_CODE {
        programmed := false;
        return;
      }
      programmed := true;
      ghost var log1 := log;
      WriteCmd2(WRITE_ENABLE);
      ghost var w := Transaction([Cmd2Tx(WRITE_ENABLE)]);
      DownloadBitstream(image);
      w := w + Transaction([SentAll([WRITE_DATA]), SentAll(image)]);
      assert log == log1 + w;
      WriteCmd2(WRITE_DISABLE);
      w := w + Transaction([Cmd2Tx(WRITE_DISABLE)]);
      assert log == log1 + w;
      WriteCmd1(NOP);
      w := w + Transaction([SentAll([NOP])]);
      assert log == log1 + w;
      log := log + [DelayMs(10)];
      w := w + [DelayMs(10)];
      assert log == log1 + w;
      assert w == WritesTrace(image);
      assert ConfigTrace(data, image) == (SetupTrace() + read) + w;
    }
  }

  /** The ID read frame carries the command in its first four bytes, and the answer is taken from
      the last four bytes clocked back: both are big-endian and lose nothing. */
  lemma ReadFraming(cmd: nat, miso: seq<byte>)
    requires IsU32(cmd) && |miso| == 8
    ensures var tx := ReadTx(cmd);
            && (forall i :: 0 <= i < 4 ==> tx[i].Sent?)
            && U32Be([tx[0].b, tx[1].b, tx[2].b, tx[3].b]) == cmd
            && (forall i :: 4 <= i < 8 ==> tx[i] == Unset)
            && EncodeU32Be(U32Be(miso[4..8])) == miso[4..8]
  {
    var tx := ReadTx(cmd);
    var e := EncodeU32Be(cmd);
    assert [tx[0].b, tx[1].b, tx[2].b, tx[3].b] == e;
    U32BeOfEncode(cmd);
    EncodeOfU32Be(miso[4..8]);
  }
}
