/** The `MainFrame` of pc_apps/pyserial-asyncio/serial_receive_gui_update.py: the same 512-byte
    packet reassembly as adc_streaming.py, but each packet with the right signature adds two lines
    to a list box, its package id and then its current samples. */
module SerialReceiveGui {
  import opened Bytes
  import Telemetry
  import PacketStream

  /** `DATA_RPT_SAMPLE_SIZE`. */
  const SAMPLES: nat := 63

  /** A list-box line: `f"Package ID: {package_id}\n"` or `f"Current (mA): {current}\n"`. */
  datatype Entry = PackageIdLine(id: int) | CurrentLine(current: seq<int>)

  /** Python's `str` of an integer. */
  function Decimal(n: int): (s: string)
    ensures |s| > 0 && (s[0] == '-' <==> n < 0)
    decreases if n < 0 then 1 - n else n
  {
    if n < 0 then "-" + Decimal(-n)
    else if n < 10 then [('0' as int + n) as char]
    else Decimal(n / 10) + [('0' as int + n % 10) as char]
  }

  predicate IsDigit(c: char) { '0' <= c <= '9' }

  /** The value of a string of decimal digits, most significant first. */
  function DigitsValue(s: string): int
    decreases |s|
  {
    if s == [] then 0 else DigitsValue(s[..|s| - 1]) * 10 + (s[|s| - 1] as int - '0' as int)
  }

  /** The integer a decimal text denotes: an optional '-' followed by digits. */
  function ReadDecimal(s: string): int
  {
    if |s| > 0 && s[0] == '-' then -DigitsValue(s[1..]) else DigitsValue(s)
  }

  /** `str(n)` for a non-negative `n` is a string of digits denoting `n`. */
  lemma {:induction false} DigitsOfDecimal(n: nat)
    ensures var s := Decimal(n);
            (forall i :: 0 <= i < |s| ==> IsDigit(s[i])) && DigitsValue(s) == n
    decreases n
  {
    var s := Decimal(n);
    if n >= 10 {
      DigitsOfDecimal(n / 10);
      var d := [('0' as int + n % 10) as char];
      assert s == Decimal(n / 10) + d;
      assert s[..|s| - 1] == Decimal(n / 10);
    }
  }

  /** Reading `str(n)` back gives `n`: the text of a line names exactly the integer it shows,
      so different integers have different texts. */
  lemma DecimalRoundTrip(n: int)
    ensures ReadDecimal(Decimal(n)) == n
    ensures var s := Decimal(n);
            forall i :: (if n < 0 then 1 else 0) <= i < |s| ==> IsDigit(s[i])
  {
    if n < 0 {
      DigitsOfDecimal(-n);
      assert Decimal(n)[1..] == Decimal(-n);
    } else {
      DigitsOfDecimal(n);
    }
  }

  /** Python's `str` of a tuple of integers with at least two items: `(a, b, c)`. */
  function TupleText(xs: seq<int>): string
  {
    "(" + Items(xs) + ")"
  }

  function Items(xs: seq<int>): string
    decreases |xs|
  {
    if xs == [] then "" else if |xs| == 1 then Decimal(xs[0]) else Decimal(xs[0]) + ", " + Items(xs[1..])
  }

  /** The index of the first ',' in `s`, or `|s|` when there is none. */
  function CommaIndex(s: string): (i: nat)
    ensures i <= |s|
    ensures forall k :: 0 <= k < i ==> s[k] != ','
    ensures i < |s| ==> s[i] == ','
    decreases |s|
  {
    if s == [] then 0 else if s[0] == ',' then 0 else 1 + CommaIndex(s[1..])
  }

  /** Reads the items of a tuple's text back: split at each ", " and read each part as a decimal. */
  function ReadItems(s: string): seq<int>
    decreases |s|
  {
    var i := CommaIndex(s);
    if i >= |s| then [ReadDecimal(s)]
    else [ReadDecimal(s[..i])] + ReadItems(s[if i + 2 <= |s| then i + 2 else |s|..])
  }

  /** `str(n)` contains no comma. */
  lemma DecimalHasNoComma(n: int)
    ensures forall k :: 0 <= k < |Decimal(n)| ==> Decimal(n)[k] != ','
  {
    DecimalRoundTrip(n);
  }

  /** Reading back the items of a non-empty tuple's text gives its values. */
  lemma {:induction false} ReadItemsOfItems(xs: seq<int>)
    requires |xs| >= 1
    ensures ReadItems(Items(xs)) == xs
    decreases |xs|
  {
    var d := Decimal(xs[0]);
    DecimalHasNoComma(xs[0]);
    DecimalRoundTrip(xs[0]);
    if |xs| == 1 {
      assert CommaIndex(d) == |d|;
    } else {
      var rest := Items(xs[1..]);
      var s := d + ", " + rest;
      assert s == Items(xs);
      assert s[|d|] == ',';
      assert CommaIndex(s) == |d|;
      assert s[..|d|] == d;
      assert s[|d| + 2..] == rest;
      ReadItemsOfItems(xs[1..]);
      assert xs == [xs[0]] + xs[1..];
    }
  }

  /** The text the list box shows for an entry. */
  function EntryText(e: Entry): string
  {
    match e
    case PackageIdLine(id) => "Package ID: " + Decimal(id) + "\n"
    case CurrentLine(current) => "Current (mA): " + TupleText(current) + "\n"
  }

  /** A package-id line shows its fixed prefix, then the id in decimal, then a newline; a current
      line shows its prefix, the parenthesised samples and a newline. */
  lemma EntryTextShows(e: Entry)
    ensures var t := EntryText(e);
            match e
            case PackageIdLine(id) =>
              |t| > 13 && t[..12] == "Package ID: " && t[|t| - 1] == '\n' && ReadDecimal(t[12..|t| - 1]) == id
            case CurrentLine(current) =>
              && |t| >= 17 && t[..15] == "Current (mA): (" && t[|t| - 2..] == ")\n"
              && t[15..|t| - 2] == Items(current)
              && (|current| >= 1 ==> ReadItems(t[15..|t| - 2]) == current)
  {
    match e
    case PackageIdLine(id) =>
      DecimalRoundTrip(id);
      var t := EntryText(e);
      assert t[12..|t| - 1] == Decimal(id);
    case CurrentLine(current) =>
      var t := EntryText(e);
      assert t == "Current (mA): (" + Items(current) + ")\n";
      assert t[15..|t| - 2] == Items(current);
      if |current| >= 1 {
        ReadItemsOfItems(current);
      }
  }

  /** `process_packet`: two lines for a packet with the right signature (the third `insert` has no
      item and adds nothing), none for any other. */
  function PacketEntries(packet: seq<byte>): (es: seq<Entry>)
    requires |packet| == PacketStream.PACKET_SIZE
    ensures |es| == if Telemetry.HasSignature(packet) then 2 else 0
    ensures |es| == 2 ==> es[0] == PackageIdLine(U32Le(packet[4..8])) && es[1].CurrentLine? && |es[1].current| == SAMPLES
    ensures |es| == 2 ==> es[1].current == I32SeqLe(packet[8 + 4 * SAMPLES..])
  {
    match Telemetry.Decode(SAMPLES, packet)
    case Some(f) => [PackageIdLine(f.packageId), CurrentLine(f.current)]
    case None => []
  }

  /** The lines added by processing `packets` in order. */
  function EntriesOf(packets: seq<seq<byte>>): seq<Entry>
    requires forall i :: 0 <= i < |packets| ==> |packets[i]| == PacketStream.PACKET_SIZE
    decreases |packets|
  {
    if packets == [] then [] else PacketEntries(packets[0]) + EntriesOf(packets[1..])
  }

  /** The number of packets with the right signature. */
  function ValidCount(packets: seq<seq<byte>>): nat
    requires forall i :: 0 <= i < |packets| ==> |packets[i]| == PacketStream.PACKET_SIZE
    decreases |packets|
  {
    if packets == [] then 0
    else (if Telemetry.HasSignature(packets[0]) then 1 else 0) + ValidCount(packets[1..])
  }

  /** Package-id lines exactly at the even positions. */
  predicate Paired(es: seq<Entry>)
  {
    |es| % 2 == 0 && forall i :: 0 <= i < |es| ==> (es[i].PackageIdLine? <==> i % 2 == 0)
  }

  lemma PairedAppend(a: seq<Entry>, b: seq<Entry>)
    requires Paired(a) && Paired(b)
    ensures Paired(a + b)
  {
    var es := a + b;
    forall i | 0 <= i < |es| ensures es[i].PackageIdLine? <==> i % 2 == 0 {
      if i >= |a| {
        var j := i - |a|;
        assert es[i] == b[j];
        DivMulAdd(0, |a| / 2, 2);
        DivMulAdd(j % 2, j / 2 + |a| / 2, 2);
        assert i == j % 2 + 2 * (j / 2 + |a| / 2);
      } else {
        assert es[i] == a[i];
      }
    }
  }

  /** Lines come in pairs, a package id followed by the current samples of the same packet: two
      lines per packet with the right signature, none for the others. */
  lemma {:induction false} EntriesArePaired(packets: seq<seq<byte>>)
    requires forall i :: 0 <= i < |packets| ==> |packets[i]| == PacketStream.PACKET_SIZE
    ensures var es := EntriesOf(packets);
            && |es| == 2 * ValidCount(packets)
            && forall i :: 0 <= i < |es| ==> (es[i].PackageIdLine? <==> i % 2 == 0)
    decreases |packets|
  {
    if packets != [] {
      EntriesArePaired(packets[1..]);
      var head := PacketEntries(packets[0]);
      assert Paired(head);
      PairedAppend(head, EntriesOf(packets[1..]));
    }
  }

  /** The lines of the first of several packets come first. */
  lemma EntriesOfCons(packet: seq<byte>, packets: seq<seq<byte>>)
    requires |packet| == PacketStream.PACKET_SIZE
    requires forall i :: 0 <= i < |packets| ==> |packets[i]| == PacketStream.PACKET_SIZE
    ensures EntriesOf([packet] + packets) == PacketEntries(packet) + EntriesOf(packets)
  {
    assert ([packet] + packets)[1..] == packets;
  }

  class MainFrame {
    /** `self.data_buffer`. */
    var dataBuffer: seq<byte>
    /** The lines of `self.listbox`, top first. */
    var listbox: seq<Entry>

    /** Between callbacks the buffer never holds a whole packet. */
    predicate Valid()
      reads this
    {
      |dataBuffer| < PacketStream.PACKET_SIZE
    }

    constructor ()
      ensures Valid() && dataBuffer == [] && listbox == []
    {
      dataBuffer := [];
      listbox := [];
    }

    /** `process_packet`. */
    method ProcessPacket(packet: seq<byte>)
      requires |packet| == PacketStream.PACKET_SIZE
      modifies this`listbox
      ensures listbox == old(listbox) + PacketEntries(packet)
    {
      match Telemetry.Decode(SAMPLES, packet) {
        case Some(f) =>
          listbox := listbox + [PackageIdLine(f.packageId)];
          listbox := listbox + [CurrentLine(f.current)];
        case None =>
      }
    }

    /** `on_data`: appends the chunk, then processes the first 512 bytes and drops them, calling
        itself again while 512 bytes or more remain. */
    method OnData(data: seq<byte>)
      modifies this`dataBuffer, this`listbox
      ensures var all := old(dataBuffer) + data;
              && dataBuffer == PacketStream.Remainder(all)
              && listbox == old(listbox) + EntriesOf(PacketStream.Packets(all))
      ensures Valid()
      decreases |dataBuffer| + |data|
    {
      ghost var all := dataBuffer + data;
      ghost var listbox0 := listbox;
      dataBuffer := dataBuffer + data;
      if |dataBuffer| < PacketStream.PACKET_SIZE {
        PacketStream.Short(all);
        assert listbox == listbox0 + [];
        return;
      }
      var packet := dataBuffer[..PacketStream.PACKET_SIZE];
      ghost var rest := dataBuffer[PacketStream.PACKET_SIZE..];
      PacketStream.Cut(all);
      EntriesOfCons(packet, PacketStream.Packets(rest));
      ProcessPacket(packet);
      dataBuffer := dataBuffer[PacketStream.PACKET_SIZE..];
      if |dataBuffer| >= PacketStream.PACKET_SIZE {
        OnData([]);
        assert rest + [] == rest;
        assert listbox == listbox0 + (PacketEntries(packet) + EntriesOf(PacketStream.Packets(rest)));
      } else {
        PacketStream.Short(rest);
      }
    }
  }
}
