# Power monitor: a verified model of its byte-level core

The power monitor is a board with a BL-series microcontroller. It measures a device's current and
bus voltage with a TI INA229 and simulates a battery with an MCP4725 DAC. A Gowin GW1N FPGA is
configured at boot. A set of PC applications talks to the board over serial ports.

This project models, in Dafny, the parts of that system that work on bytes and text:

- **The PC side.**
  - The telemetry frame: a u32 little-endian signature `0x87654321`, a u32 package id, then N i32
    voltage samples and N i32 current samples, all little-endian. It is decoded by
    `receive_data`, `process_packet` and `on_data`.
  - The frame-sized receive loop and the reassembly of 512-byte packets from chunks of any size.
  - The bounded sample history: append, then keep the last `MAX_DATA_SIZE` samples.
  - The command bytes and the reply check, the `is_measuring` flag, the two draggable markers and
    the averaging window between them.
  - The hex entry and hex display of the UART terminal. Both follow Base16 as section 8 of
    RFC 4648 describes it, in lowercase with space-separated pairs.
- **The firmware side.**
  - The `cmd_process` dispatcher.
  - The battery-simulator DAC write and read-back.
  - The INA229 register frames and init sequence.
  - The GW1N slave-SPI framing and configuration sequence.
  - Peripheral calls are recorded as a log of bus events: SPI exchanges, chip-select edges,
    delays, interrupt enables and I/O-expander pins. Ordering and framing are stated over that log.
- **The build tool** `bin2uint8_t`, which turns the FPGA bitstream into a C header.

The PC applications and the firmware do not agree on the protocol: opcodes, the length of the
ADC-configuration command and the width of the package id all differ. Each side is therefore
proved only against its own code.

Modules, one per source file plus shared definitions:

| module | file |
|---|---|
| `Bytes` | little- and big-endian integers, `Option`, flattening |
| `Telemetry`, `ReceiveLoop`, `Retention`, `PcCommands`, `Markers`, `WindowStats` | shared by the two GUI applications |
| `PowerMonitor` | pc_apps/pygubu/power_monitor.py |
| `CurrentWaveform` | pc_apps/current_waveform.py |
| `PacketStream` | packet reassembly shared by the two pyserial-asyncio applications |
| `AdcStreaming` | pc_apps/pyserial-asyncio/adc_streaming.py |
| `SerialReceiveGui` | pc_apps/pyserial-asyncio/serial_receive_gui_update.py |
| `HexText` | pc_apps/app_uart.py (and `send_data` of the two GUI applications) |
| `CmdDispatch` | cmd.c |
| `BatSim` | bat_sim.c |
| `SpiBus` | the bus-event log shared by the two SPI drivers |
| `Ina229` | ina229.c |
| `Gw1n` | gw1n.c |
| `Bin2Header` | tools/bin2uint8_t.c |

Objects whose fields the source updates in place are classes:

- the application objects `PowerMonitorApp`, `CurrentWaveformApp`, `App` and `MainFrame`;
- the command processor, with `p_wr_buf` as an array;
- the two SPI drivers, with their bus logs.

Decoding, rendering and checking are functions. Loops in the source are loops here: the receive
loops, the queue drains and the header writer.

## Model

| member | source | states |
|---|---|---|
| Bytes.U32Le | pc_apps/pygubu/power_monitor.py:687 | `struct.unpack('<I')` of four bytes is a 32-bit value, least significant byte first |
| Bytes.U32LeOfEncode | pc_apps/pygubu/power_monitor.py:687 | encoding a u32 little-endian and reading it back gives the value |
| Bytes.EncodeOfU32Le | pc_apps/pygubu/power_monitor.py:687 | reading four bytes and encoding the value gives the bytes back |
| Bytes.I32Le | pc_apps/pygubu/power_monitor.py:689-690 | `'<i'` reads four bytes as a two's-complement value in [-2^31, 2^31) |
| Bytes.I32LeOfEncode | pc_apps/pygubu/power_monitor.py:689-690 | i32 little-endian encoding followed by decoding is the identity on i32 values |
| Bytes.EncodeOfI32Le | pc_apps/pygubu/power_monitor.py:689-690 | i32 decoding followed by encoding is the identity on four bytes |
| Bytes.I32SeqLe | pc_apps/pygubu/power_monitor.py:689-690 | `'<' + 'i' * N` over 4N bytes gives N values |
| Bytes.I32SeqLeAt | pc_apps/pygubu/power_monitor.py:689-690 | value k of an unpacked run is the i32 at bytes 4k..4k+4 |
| Bytes.I32SeqLeOfEncode | pc_apps/pygubu/power_monitor.py:689-690 | unpacking the packed run of i32 values gives them back |
| Bytes.EncodeOfI32SeqLe | pc_apps/pygubu/power_monitor.py:689-690 | packing an unpacked run gives the bytes back |
| Bytes.U32Be | gw1n.c:85-88 | `rx[4]<<24 \| rx[5]<<16 \| rx[6]<<8 \| rx[7]` is a 32-bit value, most significant byte first |
| Bytes.U32BeOfEncode | gw1n.c:74-77 | big-endian encoding (`cmd >> 24` … `(uint8_t)cmd`) followed by decoding is the identity |
| Bytes.EncodeOfU32Be | gw1n.c:85-88 | big-endian decoding followed by encoding is the identity on four bytes |
| Telemetry.Decode | pc_apps/pygubu/power_monitor.py:686-690 | a frame decodes iff its first four bytes are the signature; the package id is bytes 4..8; each channel gets exactly N i32 samples |
| Telemetry.DecodeSamples | pc_apps/pygubu/power_monitor.py:689-690 | in an accepted frame, voltage sample k is the i32 at 8+4k and current sample k the i32 at 8+4N+4k |
| Telemetry.SamplesAt | pc_apps/current_waveform.py:502-503 | the two unpacked channels, sample by sample, are the i32 values at their offsets |
| Telemetry.DecodeOfEncode | pc_apps/pygubu/power_monitor.py:686-690 | decoding inverts encoding for every well-formed frame |
| Telemetry.EncodeOfDecode | pc_apps/pyserial-asyncio/adc_streaming.py:122-127 | an accepted frame's bytes are exactly the encoding of what was decoded: nothing is ignored |
| Telemetry.DecodeRejectsBadSignature | pc_apps/current_waveform.py:498-501 | a frame with the wrong signature decodes to nothing |
| Telemetry.FramesSnoc | pc_apps/current_waveform.py:506-513 | one more accepted frame adds its batch to each channel's list of batches |
| Telemetry.QueuesSnoc | pc_apps/pygubu/power_monitor.py:692-693 | one more accepted frame puts its batches at the back of both queues |
| ReceiveLoop.Pass | pc_apps/pygubu/power_monitor.py:678-698 | one pass reads exactly one frame when a whole frame is waiting, accepts it only with the right signature, and stops on an exception |
| ReceiveLoop.RunSnoc | pc_apps/pygubu/power_monitor.py:679 | running one more pass is one more step of the loop |
| ReceiveLoop.RunPrefix | pc_apps/pygubu/power_monitor.py:679 | once the loop has stopped, the remaining passes change nothing |
| ReceiveLoop.RunStopsOnFailure | pc_apps/current_waveform.py:524-527 | within a run, the loop ends exactly at the first poll where the port has raised; `disconnect` clearing `is_receiving` also ends it, which `Disconnect` models |
| ReceiveLoop.RunAfterStop | pc_apps/current_waveform.py:524-527 | nothing delivered after the exception is read |
| ReceiveLoop.RunReadsWholeFrames | pc_apps/pygubu/power_monitor.py:681-682 | at most one read per pass, each read exactly one frame long, and the accepted frames are those reads with the right signature, decoded, in order |
| ReceiveLoop.StepAccounts | pc_apps/pygubu/power_monitor.py:681-682 | one pass loses no byte: the reads plus what still waits equal what waited plus what arrived |
| ReceiveLoop.RunAccountsForEveryByte | pc_apps/current_waveform.py:494-495 | over any run, the reads back to back, then the waiting bytes, are the port's bytes up to the first exception |
| Retention.KeepLast | pc_apps/current_waveform.py:507-508 | `s[-max:]` when longer than max: the length is `min(len, max)` |
| Retention.KeepLastIsSuffix | pc_apps/pygubu/power_monitor.py:705-706 | what is kept is the end of the series, in arrival order |
| Retention.KeepLastAbsorbs | pc_apps/current_waveform.py:506-513 | trimming after every batch keeps the same samples as trimming once at the end |
| Retention.AppendAllSnoc | pc_apps/current_waveform.py:506-508 | one more batch is one more append-then-trim |
| Retention.AppendAllIsLastWindow | pc_apps/pygubu/power_monitor.py:703-719 | after any number of batches the series is the last `min(len(old)+len(batches), max)` samples of old ++ batches |
| Retention.RetainedIsSuffix | pc_apps/pygubu/power_monitor.py:31 | the history never exceeds max and every retained sample is a suffix of old ++ batches |
| Retention.DrainQueue | pc_apps/pygubu/power_monitor.py:701-709 | the drain loop leaves the last max samples of the history followed by every queued batch |
| PcCommands.SetVbatCommand | pc_apps/pygubu/power_monitor.py:334-340 | `[0x05, (v>>8)&0xFF, v&0xFF, 0]`; `hi*256+lo` is v mod 65536, and v itself for 0 ≤ v < 65536 |
| PcCommands.SetVbatCommandInjective | pc_apps/pygubu/power_monitor.py:334-340 | two in-range scale values never give the same command |
| PcCommands.VbatEnableCommand | pc_apps/pygubu/power_monitor.py:302-306 | `[0x06, 1, 0, 0]` iff the button is ticked, `[0x06, 0, 0, 0]` otherwise |
| PcCommands.AdcConfigCommand | pc_apps/pygubu/power_monitor.py:584-596 | eight bytes `[0x02,0,0,0,ct,avg,range,0x01]`; bytes 4, 5 and 6 are exactly `conversion_times[ct]`, `average_num[avg]` and `adc_range[range]`, each in its code range |
| PcCommands.AdcConfigCommandInjective | pc_apps/pygubu/power_monitor.py:38-60 | every menu selection gives a different command |
| PcCommands.BareCommand | pc_apps/pygubu/power_monitor.py:539 | opcode followed by three zero bytes |
| PcCommands.CheckReply | pc_apps/pygubu/power_monitor.py:570 | accepted iff the reply has at least 2 bytes, byte 0 echoes the opcode and byte 1 is 0x01; an empty reply, or a 1-byte reply echoing the opcode, raises |
| PcCommands.CheckReplyIgnoresTail | pc_apps/pygubu/power_monitor.py:316 | bytes after the status byte do not affect the check |
| PcCommands.ReportOf | pc_apps/pygubu/power_monitor.py:311-320 | a handler reports success iff the reply is accepted, "respone error" iff it mismatches, and shows the exception otherwise |
| Markers.TruncToInt | pc_apps/pygubu/power_monitor.py:278-279 | Python `int()` of a float truncates toward zero |
| Markers.PressTarget | pc_apps/pygubu/power_monitor.py:400-406 | marker 1 is picked only at or left of it, marker 2 only at or right of it; otherwise the choice stays |
| Markers.DragMarker1 | pc_apps/pygubu/power_monitor.py:426 | `min(max(x,0), m2)`: never right of marker 2, never negative; x itself inside that range, 0 left of it (when m2 ≥ 0) and m2 right of it |
| Markers.DragMarker2 | pc_apps/pygubu/power_monitor.py:429 | `max(min(x,len), m1)`: never left of marker 1, never past the data; x itself inside that range, len right of it (when len ≥ m1) and m1 left of it |
| Markers.MarkerValue | pc_apps/current_waveform.py:342-343 | a sample iff `0 <= int(pos) < len`, that sample; 'N/A' otherwise |
| Markers.PySlice | pc_apps/pygubu/power_monitor.py:502 | Python slicing never yields more than the data |
| Markers.WindowOfOrderedMarkers | pc_apps/current_waveform.py:314-321 | with ordered markers the window is `data[int(m1) : min(int(m2), len)]`, empty when that range is |
| Markers.WindowSamplesBetweenMarkers | pc_apps/pygubu/power_monitor.py:494-502 | every window sample is a sample whose index lies between the two markers |
| WindowStats.MinOf | pc_apps/pygubu/power_monitor.py:509 | `np.min`: a sample of the window no larger than any other |
| WindowStats.MaxOf | pc_apps/pygubu/power_monitor.py:510 | `np.max`: a sample of the window no smaller than any other |
| WindowStats.SumAtLeast | pc_apps/pygubu/power_monitor.py:508 | a sum of samples each at least m is at least count·m |
| WindowStats.SumAtMost | pc_apps/pygubu/power_monitor.py:508 | a sum of samples each at most m is at most count·m |
| WindowStats.WindowReadout | pc_apps/pygubu/power_monitor.py:506-515 | empty window: all three read-outs 0; otherwise min and max are window samples bounding every sample, and the average is the mean, between them |
| WindowStats.MeanOfWindow | pc_apps/pygubu/power_monitor.py:508-510 | the mean of a non-empty window lies between its minimum and maximum |
| PowerMonitor.PowerMonitorApp.constructor | pc_apps/pygubu/power_monitor.py:101-183 | ports closed, not receiving or measuring, empty series and queues, markers at 200 and 400 |
| PowerMonitor.PowerMonitorApp.Connect | pc_apps/pygubu/power_monitor.py:627-639 | the command port opens first; receiving starts only when the data port opens too |
| PowerMonitor.PowerMonitorApp.Disconnect | pc_apps/pygubu/power_monitor.py:641-654 | receiving stops and the command port is closed |
| PowerMonitor.PowerMonitorApp.ReceiveData | pc_apps/pygubu/power_monitor.py:678-698 | the loop's final state is the receive loop's run with N=63; each accepted frame's batches go, in order, to the back of the two queues |
| PowerMonitor.PowerMonitorApp.EnqueueFrame | pc_apps/pygubu/power_monitor.py:692-693 | `put` of the two batches of an accepted frame |
| PowerMonitor.PowerMonitorApp.UpdateWaveform | pc_apps/pygubu/power_monitor.py:700-720 | both queues are emptied; each series becomes the last 20000 samples of itself followed by its queue |
| PowerMonitor.PowerMonitorApp.ExecuteStartMeasuring | pc_apps/pygubu/power_monitor.py:557-578 | writes `[0x07,0,0,0]`; measuring is on afterwards unless the reply mismatches; an exception still turns it on |
| PowerMonitor.PowerMonitorApp.ExecuteStopMeasuring | pc_apps/pygubu/power_monitor.py:530-555 | writes `[0x08,0,0,0]`; the reply is not checked, so with the port open measuring is always off afterwards |
| PowerMonitor.PowerMonitorApp.ExecuteAdcConfiguration | pc_apps/pygubu/power_monitor.py:580-625 | the 8-byte command first; the 0x04 command is written iff the first reply is accepted; the report is that of the last exchange |
| PowerMonitor.PowerMonitorApp.OnSetVbatValue | pc_apps/pygubu/power_monitor.py:332-357 | writes the set-vbat command for the truncated slider value and reports on its reply |
| PowerMonitor.PowerMonitorApp.OnChangeVbatEnable | pc_apps/pygubu/power_monitor.py:298-322 | writes the enable command for the button's state and reports on its reply |
| PowerMonitor.PowerMonitorApp.OnPress | pc_apps/pygubu/power_monitor.py:393-406 | while not measuring, a click in the plot picks the marker to drag |
| PowerMonitor.PowerMonitorApp.OnRelease | pc_apps/pygubu/power_monitor.py:408-412 | while not measuring, the drag ends |
| PowerMonitor.PowerMonitorApp.OnMotion | pc_apps/pygubu/power_monitor.py:414-431 | only the dragged marker moves, clamped, so `0 <= marker1 <= marker2` is kept |
| CurrentWaveform.CurrentWaveformApp.constructor | pc_apps/current_waveform.py:70-201 | port closed, not receiving or measuring, empty series, markers at 200 and 400 |
| CurrentWaveform.CurrentWaveformApp.Connect | pc_apps/current_waveform.py:455-465 | on success the port is open and receiving starts; on failure nothing changes |
| CurrentWaveform.CurrentWaveformApp.Disconnect | pc_apps/current_waveform.py:467-475 | receiving stops, the port is closed, and which message box is shown depends on whether it was open |
| CurrentWaveform.CurrentWaveformApp.ReceiveData | pc_apps/current_waveform.py:491-527 | the loop's final state is the receive loop's run with N=256; each series is the last 100000 samples of itself followed by the accepted frames' batches; the two series stay the same length |
| CurrentWaveform.CurrentWaveformApp.AppendFrame | pc_apps/current_waveform.py:506-513 | each series gets the frame's batch and keeps its last 100000 samples |
| CurrentWaveform.CurrentWaveformApp.ExecuteStopMeasuring | pc_apps/current_waveform.py:359-383 | writes `[0x08,0,0,0]`; on a mismatching reply it returns with measuring unchanged, otherwise measuring is off |
| CurrentWaveform.CurrentWaveformApp.ExecuteStartMeasuring | pc_apps/current_waveform.py:385-406 | writes `[0x07,0,0,0]`; measuring is on afterwards unless the reply mismatches |
| CurrentWaveform.CurrentWaveformApp.ExecuteAdcConfiguration | pc_apps/current_waveform.py:408-453 | the 8-byte command first; the 0x04 command is written iff the first reply is accepted |
| CurrentWaveform.CurrentWaveformApp.OnPress | pc_apps/current_waveform.py:262-275 | while not measuring, a click in the plot picks the marker to drag |
| CurrentWaveform.CurrentWaveformApp.OnRelease | pc_apps/current_waveform.py:277-281 | while not measuring, the drag ends |
| CurrentWaveform.CurrentWaveformApp.OnMotion | pc_apps/current_waveform.py:283-300 | only the dragged marker moves, clamped, so `0 <= marker1 <= marker2` is kept |
| PacketStream.Packets | pc_apps/pyserial-asyncio/adc_streaming.py:105-114 | the packets cut from a buffer are 512 bytes each, `len // 512` of them |
| PacketStream.Remainder | pc_apps/pyserial-asyncio/adc_streaming.py:118-119 | what stays buffered is `len % 512` bytes, fewer than a packet |
| PacketStream.Cut | pc_apps/pyserial-asyncio/adc_streaming.py:107-114 | a buffer holding a whole packet gives its first 512 bytes as the next packet and keeps the rest |
| PacketStream.PacketsCover | pc_apps/pyserial-asyncio/serial_receive_gui_update.py:62-69 | the packets back to back, then the remainder, are the input: nothing lost or duplicated |
| PacketStream.PacketAt | pc_apps/pyserial-asyncio/adc_streaming.py:107 | packet i is bytes 512i..512(i+1) of the stream |
| PacketStream.PacketsSplit | pc_apps/pyserial-asyncio/adc_streaming.py:102-119 | splitting the stream in two gives the packets of the first part, then those of its leftover followed by the second part |
| PacketStream.ChunkingDoesNotMatter | pc_apps/pyserial-asyncio/adc_streaming.py:100-119 | however the stream is chunked, the same packets come out in the same order and the same bytes stay buffered |
| AdcStreaming.ShownSnoc | pc_apps/pyserial-asyncio/adc_streaming.py:125-131 | a packet with the wrong signature leaves the plot as it was; one with the right signature is what is shown, 63 samples per line |
| AdcStreaming.ShownStreamIsShown | pc_apps/pyserial-asyncio/adc_streaming.py:105-119 | cutting packets as they come shows the stream's packets in order |
| AdcStreaming.App.constructor | pc_apps/pyserial-asyncio/adc_streaming.py:48-53 | empty buffer, nothing plotted |
| AdcStreaming.App.ProcessPacket | pc_apps/pyserial-asyncio/adc_streaming.py:121-131 | the plot changes only for a packet with the right signature |
| AdcStreaming.App.OnData | pc_apps/pyserial-asyncio/adc_streaming.py:100-119 | the chunk is appended first; the packets processed are exactly the packets of old buffer ++ chunk, in order; fewer than 512 bytes stay |
| SerialReceiveGui.Decimal | pc_apps/pyserial-asyncio/serial_receive_gui_update.py:84 | `str` of an integer is non-empty and starts with '-' iff negative |
| SerialReceiveGui.DigitsOfDecimal | pc_apps/pyserial-asyncio/serial_receive_gui_update.py:84 | `str` of a non-negative integer is all digits and denotes that integer |
| SerialReceiveGui.DecimalRoundTrip | pc_apps/pyserial-asyncio/serial_receive_gui_update.py:84 | reading `str(n)` back as a decimal gives n, and everything after an optional sign is a digit |
| SerialReceiveGui.EntryTextShows | pc_apps/pyserial-asyncio/serial_receive_gui_update.py:84-85 | a package-id line is its prefix, the id in decimal (which reads back as the id) and a newline; a current line is its prefix, then `(`, the samples' text `Items(current)`, `)` and a newline, and that text reads back as exactly the samples |
| SerialReceiveGui.ReadItemsOfItems | pc_apps/pyserial-asyncio/serial_receive_gui_update.py:85 | the text of a non-empty tuple, split at each ", " and read as decimals, gives back its values in order |
| SerialReceiveGui.DecimalHasNoComma | pc_apps/pyserial-asyncio/serial_receive_gui_update.py:84-85 | `str` of an integer contains no comma, so the separators of a tuple's text are unambiguous |
| SerialReceiveGui.PacketEntries | pc_apps/pyserial-asyncio/serial_receive_gui_update.py:76-88 | a packet with the right signature adds a package-id line with the id of bytes 4..8, then a current line holding exactly the 63 i32 samples of bytes 260..512; any other adds nothing |
| SerialReceiveGui.PairedAppend | pc_apps/pyserial-asyncio/serial_receive_gui_update.py:84-85 | two paired line lists concatenated stay paired |
| SerialReceiveGui.EntriesArePaired | pc_apps/pyserial-asyncio/serial_receive_gui_update.py:80-88 | the list box holds two lines per valid packet, package-id lines exactly at even positions |
| SerialReceiveGui.EntriesOfCons | pc_apps/pyserial-asyncio/serial_receive_gui_update.py:60-74 | the lines of the first packet come before those of the later ones |
| SerialReceiveGui.MainFrame.constructor | pc_apps/pyserial-asyncio/serial_receive_gui_update.py:45-50 | empty buffer and empty list box |
| SerialReceiveGui.MainFrame.ProcessPacket | pc_apps/pyserial-asyncio/serial_receive_gui_update.py:76-88 | appends the packet's lines to the list box |
| SerialReceiveGui.MainFrame.OnData | pc_apps/pyserial-asyncio/serial_receive_gui_update.py:52-74 | the list box gains the lines of the packets of old buffer ++ chunk, in order; fewer than 512 bytes stay |
| HexText.LowerDigit | pc_apps/app_uart.py:116 | a lowercase hex digit whose value is the nibble |
| HexText.ByteHex | pc_apps/app_uart.py:116 | `f'{byte:02x}'` is two hex digits whose value is the byte |
| HexText.HexValue | pc_apps/app_uart.py:106 | a hex digit of either case has a value below 16 |
| HexText.RenderHex | pc_apps/app_uart.py:116 | the rendering of n bytes is 3n-1 characters long, 0 for none |
| HexText.RenderHexLayout | pc_apps/app_uart.py:116 | byte i is at characters 3i and 3i+1, with a single space after every byte but the last |
| HexText.RenderHexEnds | pc_apps/app_uart.py:116 | the rendering neither starts nor ends with whitespace |
| HexText.ReceivedLine | pc_apps/app_uart.py:116-117 | the output line is the label "Received: ", then text that parses back through `send_data`'s decoding to exactly the bytes received, then a newline |
| HexText.StripLeftSpec | pc_apps/app_uart.py:102 | `lstrip` drops exactly the leading whitespace |
| HexText.StripRightSpec | pc_apps/app_uart.py:102 | `rstrip` drops exactly the trailing whitespace |
| HexText.StripSpec | pc_apps/app_uart.py:102 | `strip` keeps a contiguous part with no whitespace at either end and only whitespace around it |
| HexText.RemoveSpaces | pc_apps/app_uart.py:106 | `replace(" ", "")` leaves no space and never lengthens the text |
| HexText.RemoveSpacesAppend | pc_apps/app_uart.py:106 | removing spaces distributes over concatenation |
| HexText.HexPairs | pc_apps/app_uart.py:106 | byte i is `16·digit(2i) + digit(2i+1)`, half as many bytes as digits |
| HexText.Unhexlify | pc_apps/app_uart.py:106 | decodes iff the text is ASCII, of even length and all hex digits; a non-ASCII text and an odd length are their own errors |
| HexText.PairsOf | pc_apps/app_uart.py:116 | the rendering without separators has two hex digits per byte |
| HexText.RemoveSpacesOfRender | pc_apps/app_uart.py:106 | removing the spaces of a rendering leaves exactly the digit pairs |
| HexText.HexPairsOfPairs | pc_apps/app_uart.py:106 | decoding the digit pairs gives the bytes back |
| HexText.PairsOfAt | pc_apps/app_uart.py:116 | pair i of the digits is the rendering of byte i |
| HexText.UnhexlifyPairs | pc_apps/app_uart.py:106 | `unhexlify` of the digit pairs gives the bytes back |
| HexText.ParseOfRender | pc_apps/app_uart.py:102-116 | round trip: typing what `receive_data` displays sends exactly the displayed bytes |
| HexText.StripOfRender | pc_apps/app_uart.py:102 | `strip` leaves a rendering unchanged |
| HexText.StripUnpadded | pc_apps/app_uart.py:102 | `strip` leaves text without whitespace at its ends unchanged |
| HexText.ParseIgnoresSpacing | pc_apps/app_uart.py:102-106 | whitespace around the input does not change the bytes sent |
| HexText.RemoveSpacesOfPairs | pc_apps/app_uart.py:106 | digit pairs have no space to remove |
| HexText.StripAround | pc_apps/app_uart.py:102 | `strip` of whitespace + text + whitespace is the text, when the text has no whitespace at its ends |
| HexText.StripLeftSkips | pc_apps/app_uart.py:102 | `lstrip` removes exactly a whitespace prefix |
| HexText.StripRightSkips | pc_apps/app_uart.py:102 | `rstrip` removes exactly a whitespace suffix |
| HexText.SendData | pc_apps/app_uart.py:97-109 | bytes are written iff the port is open, the whole input decodes and the write succeeds, and then they are the decoded bytes; a closed port gives the "connect first" outcome and nothing else does; a decoding error writes nothing and carries the decoder's error; a write that raises is reported only for an open port and decoded input |
| CmdDispatch.ResultCode | cmd.c:30-88 | the result byte is 1 for opcodes 0x00–0x09 and 0 for any other |
| CmdDispatch.DeviceActions | cmd.c:36-83 | only 0x01 (reset), 0x08 (start) and 0x09 (stop) trigger a device action, at most one |
| CmdDispatch.ResponsesSentAppend | cmd.c:34-87 | responses sent add up over concatenated action logs |
| CmdDispatch.OneResponsePerCommand | cmd.c:34-87 | every 4-byte command, known or not, is answered exactly once, and the answer comes last |
| CmdDispatch.CommandProcessor.constructor | cmd.c:11-19 | the response is built in the shared write buffer |
| CmdDispatch.CommandProcessor.Process | cmd.c:16-90 | a command of any length but 4 changes nothing; otherwise byte 0 echoes the opcode, byte 1 is the result, and the device action is followed by one 4-byte send |
| CmdDispatch.ResponseLayout | cmd.c:28-87 | the response echoes the opcode, its result is 1 iff the opcode is known, and the reserved bytes 2 and 3 are never written |
| BatSim.Clamp | bat_sim.c:53-60 | the code written is `min(data, 3622)` |
| BatSim.FastModeWrite | bat_sim.c:46-74 | a 2-byte write to 0x60 with the upper nibble of byte 0 zero; the DAC receives exactly the clamped code |
| BatSim.EprHigh | bat_sim.c:42 | the EEPROM code's bits 11:8, below 16 |
| BatSim.DecodeConfig | bat_sim.c:31-43 | RDY from bit 7, POR from bit 6, PD from bits 2:1, the DAC code `((b1<<8)\|b2)>>4` split into high and low bytes, EEPROM PD from bits 6:5 of byte 3, each in its field's range |
| BatSim.ReadConfigDataCodeEeprom | bat_sim.c:16-44 | a 5-byte read from 0x60, and the fields as the firmware prints them: `DecodeConfigAsWritten` of what the DAC returned, so `EPR_H` always ends in the nibble F |
| BatSim.ReadBack | bat_sim.c:29 | the five bytes the DAC returns for its state |
| BatSim.ConfigRoundTrip | bat_sim.c:31-43 | the printed fields are the DAC's state: every flag and mode, and both 12-bit codes as high·256 + low |
| BatSim.StatusFields | bat_sim.c:32-34 | the status byte's three fields are read back unchanged |
| BatSim.DacFields | bat_sim.c:36-39 | the DAC register's code is read back unchanged |
| BatSim.EepromFields | bat_sim.c:41-43 | the EEPROM mode and code are read back unchanged |
| BatSim.EprHighAsWrittenMisreports | bat_sim.c:42 | as written, every other field shows the DAC's state, but `EPR_H` is the power-down bits followed by F, so the printed EEPROM code is right only when its bits 11:8 are all ones and PD is 0 |
| BatSim.EprHighAsWrittenZero | bat_sim.c:42 | for byte 3 = 0x00 the firmware prints `EPR_H = F`; the corrected decode gives 0 |
| SpiBus.SentAll | gw1n.c:82 | bytes the driver set, as clocked out |
| SpiBus.Unsent | gw1n.c:64 | bytes from a `NULL` buffer are not set by the driver |
| SpiBus.Xfers | gw1n.c:127-128 | one exchange per buffer, in order |
| SpiBus.WindowsOfXfers | gw1n.c:126-129 | exchanges inside one chip-select window add their bytes to it |
| SpiBus.Transaction | gw1n.c:100-103 | a transaction is a dummy byte, chip select low, the exchanges, chip select high |
| SpiBus.WindowsOfTransaction | gw1n.c:79-83 | a transaction is one window holding all its exchanges' bytes; the dummy byte is outside it |
| SpiBus.WindowsSkipQuiet | gw1n.c:139-140 | events that neither drive chip select nor clock anything leave the windows alone |
| SpiBus.TransactionHasDummy | gw1n.c:114-117 | every transaction drives chip select low right after a dummy byte |
| SpiBus.DummyBeforeSelectAppend | gw1n.c:132-162 | that property holds for a sequence of transactions |
| Ina229.Zeros | ina229.c:97-98 | `memset(…, 0, n)`: n zero bytes |
| Ina229.ReadHeader | ina229.c:100 | `(addr << 2) \| 0x01` as a byte: bit 0 set, bit 1 clear, the low six address bits in bits 7:2 |
| Ina229.ShiftedAddress | ina229.c:116 | `addr << 2` truncated to a byte keeps the low six address bits |
| Ina229.ExchangeLength | ina229.c:102-109 | `len` when below `MAX_REG_VALUE_SIZE = 40/8+1 = 6`, 6 otherwise |
| Ina229.ReadFrame | ina229.c:97-100 | the read header followed by zeros |
| Ina229.WriteFrame | ina229.c:116-118 | three bytes: `addr << 2` with bit 0 clear, then the value big-endian |
| Ina229.DecodeReadFrame | ina229.c:93-110 | the INA229 reads a read frame as a read of that register, that long |
| Ina229.DecodeWriteFrame | ina229.c:112-121 | the INA229 reads a write frame as a write of that value to that register |
| Ina229.AccessOf | ina229.c:104-120 | each bus event performs at most one register access |
| Ina229.AccessesAppend | ina229.c:123-162 | the accesses of a log add up over concatenation |
| Ina229.InitOrder | ina229.c:127-162 | init reads MANUFACTURER_ID and DEVICE_ID, then writes ADC_CONFIG=0x8000, DIAG_ALRT=0x4000, ADC_CONFIG=0x9600, and nothing else |
| Ina229.InitSteps | ina229.c:140-162 | the reset write is followed by the 200 ms wait; the interrupt is enabled after the alert write and before the mode write |
| Ina229.IdentifyOrder | ina229.c:129-130 | the two identification reads, 3 bytes each |
| Ina229.ConfigureOrder | ina229.c:140-162 | reset, alert configuration, then the measurement mode |
| Ina229.BusInitAccesses | ina229.c:87-91 | bus setup performs no register access |
| Ina229.ReadEventAccess | ina229.c:93-110 | a read exchange performs exactly that register read |
| Ina229.WriteEventAccess | ina229.c:112-121 | a write exchange performs exactly that register write |
| Ina229.Driver.constructor | ina229.c:12-13 | an empty bus log |
| Ina229.Driver.InterfaceBusInit | ina229.c:87-91 | interrupt disabled while the GPIOs are set up, then SPI at 10 MHz, mode 1 |
| Ina229.Driver.EnableAlertInterrupt | ina229.c:48-51 | logs the interrupt enable |
| Ina229.Driver.DisableAlertInterrupt | ina229.c:53-56 | logs the interrupt disable |
| Ina229.Driver.SetVoltMeasurement | ina229.c:58-66 | switches the VOL_MEASURE expander pin |
| Ina229.Driver.RegRead | ina229.c:93-110 | one exchange of the read frame, at most 6 bytes; the caller's first `len` bytes are what came back then zeros, and the rest of its buffer is untouched |
| Ina229.Driver.RegWrite | ina229.c:112-121 | one 3-byte exchange of the write frame |
| Ina229.Driver.Init | ina229.c:123-163 | the bus log grows by exactly the init trace, and the two IDs are what the device returned |
| Ina229.Driver.GpioIsr | ina229.c:20-26 | a 3-byte read of DIAG_ALRT for pin 0, nothing for any other pin |
| Ina229.IsrReadsAlertRegister | ina229.c:20-26 | the interrupt performs one DIAG_ALRT read on pin 0 and no access otherwise |
| Gw1n.ReadTx | gw1n.c:74-82 | eight bytes: the command big-endian in bytes 0–3, bytes 4–7 never set |
| Gw1n.Cmd2Tx | gw1n.c:111-112 | high byte then low byte, `hi*256+lo == cmd` |
| Gw1n.ConfigWindows | gw1n.c:132-162 | the FPGA sees the ID read; then, only for ID 0x0900281B, write enable 0x1500, 0x3B and the whole bitstream in one selection, write disable 0x3A00, and 0x02, in that order |
| Gw1n.WritesWindows | gw1n.c:152-161 | the programming steps are four selections in that order |
| Gw1n.ConfigDummies | gw1n.c:79-117 | chip select is never driven low without a dummy byte just before |
| Gw1n.WritesDummies | gw1n.c:152-161 | the same for the programming steps |
| Gw1n.ReadFraming | gw1n.c:74-88 | the read frame carries the command big-endian and the result is the big-endian assembly of rx bytes 4–7, both lossless |
| Gw1n.Driver.constructor | gw1n.c:8-9 | an empty bus log |
| Gw1n.Driver.PowerOn | gw1n.c:48-53 | mode pin, core supply, I/O supply, in that order |
| Gw1n.Driver.PowerOff | gw1n.c:55-60 | mode pin, I/O supply, core supply, in that order |
| Gw1n.Driver.SpiGpioInit | gw1n.c:14-27 | chip select becomes an output, driven high |
| Gw1n.Driver.SpiInit | gw1n.c:29-46 | SPI at the given MHz, mode 0 |
| Gw1n.Driver.SpiDummyClk | gw1n.c:62-65 | exactly one byte from a `NULL` buffer, whatever `n_clk` asks for |
| Gw1n.Driver.Read | gw1n.c:67-91 | one transaction of the read frame; the result is rx bytes 4–7 big-endian |
| Gw1n.Driver.WriteCmd1 | gw1n.c:93-104 | one transaction of the command byte |
| Gw1n.Driver.WriteCmd2 | gw1n.c:106-118 | one transaction of the command, high byte first |
| Gw1n.Driver.DownloadBitstream | gw1n.c:120-130 | 0x3B and then every data byte in order, in one transaction |
| Gw1n.Driver.FpgaConfig | gw1n.c:132-174 | programs iff the ID read returns 0x0900281B, and the bus log grows by exactly the configuration trace for that ID |
| Bin2Header.UpperDigit | tools/bin2uint8_t.c:47 | an uppercase hex digit whose value is the nibble |
| Bin2Header.UpperValue | tools/bin2uint8_t.c:47 | the value of an uppercase hex digit is below 16 |
| Bin2Header.Token | tools/bin2uint8_t.c:47 | `"0x%02X"` is "0x" and two uppercase digits whose value is the byte |
| Bin2Header.WriteItem | tools/bin2uint8_t.c:44-50 | one pass writes "\n    " iff i % 12 == 0, then the token, then ", " iff it is not the last byte |
| Bin2Header.ConvertToHeader | tools/bin2uint8_t.c:38-54 | the text written is the prefix, one item per input byte in order, then the suffix |
| Bin2Header.RunTool | tools/bin2uint8_t.c:62-70 | any argument count other than two prints usage and returns 1 without writing; otherwise the header is written and 0 returned |
| Bin2Header.ParseItem | tools/bin2uint8_t.c:43-51 | one item followed by a readable list reads back as its byte followed by that list |
| Bin2Header.ParseItemsFrom | tools/bin2uint8_t.c:43-51 | the items from k on read back as the bytes from k on |
| Bin2Header.ItemsSplit | tools/bin2uint8_t.c:43-51 | the items written so far and the items still to come make up the whole body |
| Bin2Header.HeaderRoundTrip | tools/bin2uint8_t.c:38-54 | the header is prefix + body + suffix, and the body reads back as exactly the input bytes, one token each, in order |
| Bin2Header.EmptyHeader | tools/bin2uint8_t.c:43-54 | an empty input gives the prefix directly followed by the suffix |

## Left out

- Widgets, plotting, message boxes and `on_scroll` zooming: they are user interface. What a handler tells the user is a `Report` value, and the text boxes are functions of the state (`Markers.MarkerValue`, `WindowStats.WindowReadout`).
- Threads, `queue.Queue` blocking, `root.after` scheduling and `ReaderThread`: their point is concurrency. The receive loops run as a sequence of passes over given port polls. The callbacks run one after another. `time.sleep` is left out.
- `serial.Serial` itself is abstracted. Opening a port, a write and a read become parameters: `opens`, `Exchange` and `PortPoll`. A port failure ends the receive loop, but its exception text is not modelled.
- The `receive_data` polling loop of app_uart.py is left out because it is I/O. Only the line it displays for one read is modelled (`HexText.ReceivedLine`).
- Floating point:
  - Marker positions and the average are exact reals, not doubles.
  - `np.isfinite` filtering is the identity, since the samples are i32 values.
  - The `:.2f` formatting, the vbat voltage display `DAC_VCC*v/4096` and `%f` in bat_sim.c are not modelled.
- `SettingsManager` JSON settings and pygubu UI generation are left out because they are file I/O and generated stubs.
- `int(baudrate)` parsing and `flushInput`/`flushOutput` are left out.
- `disconnect` joining the receive thread is left out. It needs threads.
- CurrentWaveform.CurrentWaveformApp.ReceiveData: the plotting calls `update_current_waveform` and `update_volatge_waveform` run inside the same `try` as the port read, so an exception they raise also clears `is_receiving` and ends the loop, after the frame's samples were appended. The model treats plotting as never raising: a run ends only on a port failure, before anything of that pass is appended, so it does not show a frame kept and then the loop stopped.
- CurrentWaveform.CurrentWaveformApp.ExecuteStartMeasuring, ExecuteStopMeasuring and ExecuteAdcConfiguration: current_waveform.py writes each command and reads its `read(16)` reply on the same port that `receive_data` reads frames from. The model draws the reply from a separate `Exchange` and never takes bytes from `dataPort`. So it does not capture a reply read consuming frame bytes, which would leave every later frame misaligned and failing the signature check. power_monitor.py uses two ports and is not affected.
- `printf` and `cdc_acm_printf` output is left out; `cdc_acm_data_send` is an action in the log. The USB stack (cdc_acm_template.c), main.c and tca9534.c are not part of this model. The I/O-expander pins are events in the bus log.
- `ina229_reset`, `ina229_start_measure` and `ina229_stop_measure` (declared in ina229.h) are not part of this model; the dispatcher records them as actions.
- `gowin_spi0_gpio_init` and `spi_gpio_init` appear in the log only as the chip-select level and the interrupt disable. Pin multiplexing is not modelled.
- The GPIO, SPI, I2C and timer drivers' own behaviour is not modelled, because those are foreign calls. A byte the driver never sets (`txData[4..8]`, a `NULL` transmit buffer) is modelled as `Unset` rather than as an arbitrary value.
- File-open, size and allocation errors in `convert_to_header` are left out; the tool is modelled from the bytes read to the text written.
- The `#if 0` bitstream check in `gowin_fpga_config` is left out because it is compiled out.
- The `cmd_t` parameter bytes are ignored by `cmd_process`. Only opcode and length are modelled.
- The protocol comments in cmd.h say start and stop measuring get no response. The code answers them like every other command, and the model follows the code.
- Markers.PressTarget: states which side of the clicked marker a pick can come from, not the distance test `abs(x - m) < (m1 + m2) / 2` itself.
- PcCommands.SetVbatCommand: the slider's range is not modelled. For any integer the command carries the value modulo 65536.

## Findings

| source | as written | input that shows it | evidently intended | confidence | as-written member | corrected member |
|---|---|---|---|---|---|---|
| bat_sim.c:42 | `EPR_H` printed as `p_rx[3] \| 0x0F` | `p_rx[3] = 0x00` (EEPROM code high nibble 0) prints `EPR_H = F` | `p_rx[3] & 0x0F`, bits 11:8 of the stored code | not executed | BatSim.EprHighAsWrittenMisreports | BatSim.ConfigRoundTrip |
