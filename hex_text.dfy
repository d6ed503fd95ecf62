/** Hex entry and hex display of app_uart.py (the same parsing serves `send_data` in
    power_monitor.py and current_waveform.py): received bytes are shown as lowercase
    Base16 pairs joined by single spaces, and typed input is stripped, has its spaces
    removed and is decoded by `binascii.unhexlify` (Base16 as in section 8 of RFC 4648,
    accepting either case). */
module HexText {
  import opened Bytes

  /** The lowercase hex digit for `d`: `0`-`9`, then `a`-`f`. */
  function LowerDigit(d: nat): (c: char)
    requires d < 16
    ensures IsHexDigit(c) && HexValue(c) == d
    ensures c != ' ' && c < '\U{80}' && !IsSpace(c)
  {
    if d < 10 then ('0' as int + d) as char else ('a' as int + d - 10) as char
  }

  /** `f'{byte:02x}'`: two lowercase hex digits. */
  function ByteHex(b: byte): (s: string)
    ensures |s| == 2 && IsHexDigit(s[0]) && IsHexDigit(s[1])
    ensures HexValue(s[0]) * 16 + HexValue(s[1]) == b
    ensures s[0] != ' ' && s[1] != ' ' && !IsSpace(s[0]) && !IsSpace(s[1])
  {
    [LowerDigit(b / 16), LowerDigit(b % 16)]
  }

  predicate IsHexDigit(c: char)
  {
    '0' <= c <= '9' || 'a' <= c <= 'f' || 'A' <= c <= 'F'
  }

  /** The value of one hex digit, either case. */
  function HexValue(c: char): (v: nat)
    requires IsHexDigit(c)
    ensures v < 16
  {
    if '0' <= c <= '9' then c as int - '0' as int
    else if 'a' <= c <= 'f' then c as int - 'a' as int + 10
    else c as int - 'A' as int + 10
  }

  /** `' '.join([f'{byte:02x}' for byte in response])`. */
  function RenderHex(bs: seq<byte>): (s: string)
    ensures |s| == if |bs| == 0 then 0 else 3 * |bs| - 1
    decreases |bs|
  {
    if |bs| == 0 then ""
    else if |bs| == 1 then ByteHex(bs[0])
    else ByteHex(bs[0]) + " " + RenderHex(bs[1..])
  }

  /** Byte `i` of the input is shown at characters `3i` and `3i+1`, and a single space
      separates it from the next one. */
  lemma {:induction false} RenderHexLayout(bs: seq<byte>, i: nat)
    requires i < |bs|
    ensures var s := RenderHex(bs);
            s[3 * i .. 3 * i + 2] == ByteHex(bs[i]) && (i + 1 < |bs| ==> s[3 * i + 2] == ' ')
    decreases i
  {
    var h := ByteHex(bs[0]);
    if |bs| == 1 {
      assert RenderHex(bs) == h;
    } else {
      var t := RenderHex(bs[1..]);
      assert RenderHex(bs) == (h + " ") + t;
      if i > 0 {
        RenderHexLayout(bs[1..], i - 1);
        SliceAfter(h + " ", t, 3 * (i - 1), 3 * (i - 1) + 2);
        if i + 1 < |bs| {
          assert RenderHex(bs)[3 * i + 2] == t[3 * (i - 1) + 2];
        }
      }
    }
  }

  lemma SliceAfter(a: string, b: string, x: nat, y: nat)
    requires x <= y <= |b|
    ensures (a + b)[|a| + x .. |a| + y] == b[x..y]
  {
  }

  /** The line `receive_data` appends to the output box for one read: a fixed label, then text
      that, typed back into the input box, sends exactly the bytes received, then a newline. */
  function ReceivedLine(bs: seq<byte>): (line: string)
    ensures |line| >= 11 && line[..10] == "Received: " && line[|line| - 1] == '\n'
    ensures ParseHexInput(line[10..|line| - 1]) == Parsed(bs)
  {
    var l := "Received: " + RenderHex(bs) + "\n";
    ParseOfRender(bs);
    assert l[10..|l| - 1] == RenderHex(bs);
    l
  }

  /** Python's `str.isspace` characters: what `str.strip()` with no argument removes. */
  predicate IsSpace(c: char)
  {
    c == ' ' || '\t' <= c <= '\r' || '\U{1c}' <= c <= '\U{1f}' || c == '\U{85}' || c == '\U{a0}'
    || c == '\U{1680}' || '\U{2000}' <= c <= '\U{200a}' || c == '\U{2028}' || c == '\U{2029}'
    || c == '\U{202f}' || c == '\U{205f}' || c == '\U{3000}'
  }

  function StripLeft(s: string): (r: string)
    decreases |s|
  {
    if s != [] && IsSpace(s[0]) then StripLeft(s[1..]) else s
  }

  function StripRight(s: string): (r: string)
    decreases |s|
  {
    if s != [] && IsSpace(s[|s| - 1]) then StripRight(s[..|s| - 1]) else s
  }

  /** `lstrip` drops exactly the leading whitespace: what is left is a suffix that does not start
      with whitespace, and everything before it is whitespace. */
  lemma {:induction false} StripLeftSpec(s: string)
    ensures var r := StripLeft(s);
            && |r| <= |s| && r == s[|s| - |r| ..]
            && (r != [] ==> !IsSpace(r[0]))
            && forall i :: 0 <= i < |s| - |r| ==> IsSpace(s[i])
    decreases |s|
  {
    if s != [] && IsSpace(s[0]) {
      StripLeftSpec(s[1..]);
      var r := StripLeft(s);
      forall i | 1 <= i < |s| - |r| ensures IsSpace(s[i]) {
        assert s[i] == s[1..][i - 1];
      }
    }
  }

  /** `rstrip` drops exactly the trailing whitespace. */
  lemma {:induction false} StripRightSpec(s: string)
    ensures var r := StripRight(s);
            && |r| <= |s| && r == s[..|r|]
            && (r != [] ==> !IsSpace(r[|r| - 1]))
            && forall i :: |r| <= i < |s| ==> IsSpace(s[i])
    decreases |s|
  {
    if s != [] && IsSpace(s[|s| - 1]) {
      var init := s[..|s| - 1];
      StripRightSpec(init);
      var r := StripRight(s);
      assert r == StripRight(init);
      forall i | |r| <= i < |init| ensures IsSpace(s[i]) {
        assert s[i] == init[i];
      }
      assert init[..|r|] == s[..|r|];
    }
  }

  /** `str.strip()`: the text without its leading and trailing whitespace. */
  function Strip(s: string): (r: string)
  {
    StripRight(StripLeft(s))
  }

  /** `strip` keeps a contiguous part of the text that neither starts nor ends with whitespace, and
      drops only whitespace around it. */
  lemma StripSpec(s: string)
    ensures var r, lo := Strip(s), |s| - |StripLeft(s)|;
            && (r != [] ==> !IsSpace(r[0]) && !IsSpace(r[|r| - 1]))
            && 0 <= lo <= |s| - |r| && r == s[lo .. lo + |r|]
            && (forall i :: 0 <= i < lo ==> IsSpace(s[i]))
            && (forall i :: lo + |r| <= i < |s| ==> IsSpace(s[i]))
  {
    var l := StripLeft(s);
    var r := StripRight(l);
    StripLeftSpec(s);
    StripRightSpec(l);
    var lo := |s| - |l|;
    assert l == s[lo..] && r == l[..|r|];
    assert r == s[lo .. lo + |r|] by {
      assert s[lo..][..|r|] == s[lo .. lo + |r|];
    }
    if r != [] {
      assert r[0] == l[0];
    }
    forall i | lo + |r| <= i < |s| ensures IsSpace(s[i]) {
      assert s[i] == l[i - lo];
    }
  }

  /** `str.replace(" ", "")`: every space removed, every other character kept in order. */
  function RemoveSpaces(s: string): (r: string)
    ensures forall i :: 0 <= i < |r| ==> r[i] != ' '
    ensures |r| <= |s|
    decreases |s|
  {
    if s == [] then []
    else if s[0] == ' ' then RemoveSpaces(s[1..])
    else [s[0]] + RemoveSpaces(s[1..])
  }

  /** Why `unhexlify` raised, in the order it checks. */
  datatype HexError =
    | NonAscii      // "string argument should contain only ASCII characters"
    | OddLength     // "Odd-length string"
    | NonHexDigit   // "Non-hexadecimal digit found"

  datatype ParseResult = Parsed(bytes: seq<byte>) | Failed(error: HexError)

  predicate AllAscii(s: string) { forall i :: 0 <= i < |s| ==> s[i] < '\U{80}' }

  predicate AllHexDigits(s: string) { forall i :: 0 <= i < |s| ==> IsHexDigit(s[i]) }

  /** Decodes hex pairs, high digit first; only called on an even-length run of hex digits. */
  function HexPairs(s: string): (bs: seq<byte>)
    requires |s| % 2 == 0 && AllHexDigits(s)
    ensures |bs| * 2 == |s|
    ensures forall i :: 0 <= i < |bs| ==> bs[i] == HexValue(s[2 * i]) * 16 + HexValue(s[2 * i + 1])
    decreases |s|
  {
    if s == [] then []
    else
      var rest := HexPairs(s[2..]);
      assert forall i :: 0 <= i < |rest| ==> rest[i] == HexValue(s[2 * i + 2]) * 16 + HexValue(s[2 * i + 3]);
      [HexValue(s[0]) * 16 + HexValue(s[1])] + rest
  }

  /** `binascii.unhexlify` on a string. */
  function Unhexlify(s: string): (r: ParseResult)
    ensures r.Parsed? <==> AllAscii(s) && |s| % 2 == 0 && AllHexDigits(s)
    ensures r == Failed(NonAscii) <==> !AllAscii(s)
    ensures r == Failed(OddLength) <==> AllAscii(s) && |s| % 2 == 1
    ensures r.Parsed? ==> |r.bytes| * 2 == |s|
  {
    if !AllAscii(s) then Failed(NonAscii)
    else if |s| % 2 == 1 then Failed(OddLength)
    else if !AllHexDigits(s) then Failed(NonHexDigit)
    else Parsed(HexPairs(s))
  }

  /** `binascii.unhexlify(text.strip().replace(" ", ""))`. */
  function ParseHexInput(text: string): ParseResult
  {
    Unhexlify(RemoveSpaces(Strip(text)))
  }

  /** The rendered pairs without the separating spaces. */
  function PairsOf(bs: seq<byte>): (s: string)
    ensures |s| == 2 * |bs| && AllHexDigits(s) && AllAscii(s)
    decreases |bs|
  {
    if bs == [] then "" else ByteHex(bs[0]) + PairsOf(bs[1..])
  }

  lemma {:induction false} RemoveSpacesOfRender(bs: seq<byte>)
    ensures RemoveSpaces(RenderHex(bs)) == PairsOf(bs)
    decreases |bs|
  {
    if |bs| == 1 {
      var h := ByteHex(bs[0]);
      assert RemoveSpaces(h[1..]) == [h[1]] by {
        assert h[1..][1..] == [];
      }
      assert PairsOf(bs) == h + PairsOf(bs[1..]);
    } else if |bs| > 1 {
      var h := ByteHex(bs[0]);
      RemoveSpacesOfRender(bs[1..]);
      var t := RenderHex(bs[1..]);
      var s := h + " " + t;
      assert s[1..] == [h[1]] + " " + t;
      assert s[1..][1..] == " " + t;
      assert (" " + t)[1..] == t;
      RemoveSpacesAppend(h, " " + t);
    }
  }

  lemma {:induction false} RemoveSpacesAppend(a: string, b: string)
    ensures RemoveSpaces(a + b) == RemoveSpaces(a) + RemoveSpaces(b)
    decreases |a|
  {
    if a != [] {
      assert (a + b)[0] == a[0];
      assert (a + b)[1..] == a[1..] + b;
      RemoveSpacesAppend(a[1..], b);
    } else {
      assert a + b == b;
    }
  }

  lemma {:induction false} HexPairsOfPairs(bs: seq<byte>)
    ensures HexPairs(PairsOf(bs)) == bs
    decreases |bs|
  {
    var s := PairsOf(bs);
    var r := HexPairs(s);
    assert |r| == |bs|;
    forall i | 0 <= i < |bs| ensures r[i] == bs[i] {
      PairsOfAt(bs, i);
    }
  }

  lemma {:induction false} PairsOfAt(bs: seq<byte>, i: nat)
    requires i < |bs|
    ensures PairsOf(bs)[2 * i .. 2 * i + 2] == ByteHex(bs[i])
    decreases i
  {
    if i > 0 {
      PairsOfAt(bs[1..], i - 1);
      assert PairsOf(bs) == ByteHex(bs[0]) + PairsOf(bs[1..]);
    }
  }

  /** Typed input that is exactly what `receive_data` displays parses back to the displayed bytes. */
  lemma ParseOfRender(bs: seq<byte>)
    ensures ParseHexInput(RenderHex(bs)) == Parsed(bs)
  {
    StripOfRender(bs);
    RemoveSpacesOfRender(bs);
    UnhexlifyPairs(bs);
  }

  /** The display has no whitespace around it. */
  lemma StripOfRender(bs: seq<byte>)
    ensures Strip(RenderHex(bs)) == RenderHex(bs)
  {
    RenderHexEnds(bs);
    StripUnpadded(RenderHex(bs));
  }

  /** Text with no whitespace at either end is left as it is by `strip`. */
  lemma StripUnpadded(p: string)
    requires p != [] ==> !IsSpace(p[0]) && !IsSpace(p[|p| - 1])
    ensures Strip(p) == p
  {
    assert StripLeft(p) == p;
    assert StripRight(p) == p;
  }

  lemma RenderHexEnds(bs: seq<byte>)
    ensures var s := RenderHex(bs);
            s != [] ==> !IsSpace(s[0]) && !IsSpace(s[|s| - 1])
  {
    var s := RenderHex(bs);
    if s != [] {
      RenderHexLayout(bs, 0);
      RenderHexLayout(bs, |bs| - 1);
      var k := 3 * (|bs| - 1);
      assert s[0] == s[0..2][0] == ByteHex(bs[0])[0];
      assert s[|s| - 1] == s[k..k + 2][1] == ByteHex(bs[|bs| - 1])[1];
    }
  }

  lemma UnhexlifyPairs(bs: seq<byte>)
    ensures Unhexlify(PairsOf(bs)) == Parsed(bs)
  {
    var s := PairsOf(bs);
    assert AllAscii(s) && |s| % 2 == 0 && AllHexDigits(s);
    assert Unhexlify(s) == Parsed(HexPairs(s));
    HexPairsOfPairs(bs);
  }

  /** Spaces anywhere, and whitespace around the input, do not change what is sent. */
  lemma ParseIgnoresSpacing(bs: seq<byte>, lead: string, trail: string)
    requires forall i :: 0 <= i < |lead| ==> IsSpace(lead[i])
    requires forall i :: 0 <= i < |trail| ==> IsSpace(trail[i])
    ensures ParseHexInput(lead + PairsOf(bs) + trail) == Parsed(bs)
  {
    var p := PairsOf(bs);
    if p != [] {
      PairsOfAt(bs, 0);
      PairsOfAt(bs, |bs| - 1);
    }
    StripAround(lead, p, trail);
    RemoveSpacesOfPairs(bs);
    UnhexlifyPairs(bs);
  }

  lemma {:induction false} RemoveSpacesOfPairs(bs: seq<byte>)
    ensures RemoveSpaces(PairsOf(bs)) == PairsOf(bs)
    decreases |bs|
  {
    if bs != [] {
      RemoveSpacesOfPairs(bs[1..]);
      var h := ByteHex(bs[0]);
      RemoveSpacesAppend(h, PairsOf(bs[1..]));
      assert h[1..][1..] == [];
      assert RemoveSpaces(h) == h;
    }
  }

  lemma StripAround(lead: string, p: string, trail: string)
    requires forall i :: 0 <= i < |lead| ==> IsSpace(lead[i])
    requires forall i :: 0 <= i < |trail| ==> IsSpace(trail[i])
    requires p != [] ==> !IsSpace(p[0]) && !IsSpace(p[|p| - 1])
    ensures Strip(lead + p + trail) == p
  {
    assert lead + p + trail == lead + (p + trail);
    if p == [] {
      var w := lead + trail;
      assert lead + p + trail == w;
      assert forall i :: 0 <= i < |w| ==> IsSpace(w[i]) by {
        forall i | 0 <= i < |w| ensures IsSpace(w[i]) {
          if i >= |lead| {
            assert w[i] == trail[i - |lead|];
          }
        }
      }
      StripLeftSkips(w, []);
      assert w + [] == w;
    } else {
      StripLeftSkips(lead, p + trail);
      StripRightSkips(p, trail);
    }
  }

  lemma {:induction false} StripLeftSkips(lead: string, s: string)
    requires forall i :: 0 <= i < |lead| ==> IsSpace(lead[i])
    requires s != [] ==> !IsSpace(s[0])
    ensures StripLeft(lead + s) == s
    decreases |lead|
  {
    if lead != [] {
      assert (lead + s)[1..] == lead[1..] + s;
      StripLeftSkips(lead[1..], s);
    } else {
      assert lead + s == s;
    }
  }

  lemma {:induction false} StripRightSkips(s: string, trail: string)
    requires forall i :: 0 <= i < |trail| ==> IsSpace(trail[i])
    requires s != [] ==> !IsSpace(s[|s| - 1])
    ensures StripRight(s + trail) == s
    decreases |trail|
  {
    if trail != [] {
      var t := trail[..|trail| - 1];
      assert (s + trail)[..|s + trail| - 1] == s + t;
      StripRightSkips(s, t);
    } else {
      assert s + trail == s;
    }
  }

  /** What `send_data` does. */
  datatype SendOutcome =
    | NotConnected          // "Please connect to a UART port first."
    | Written(bytes: seq<byte>)
    | ParseError(error: HexError)
    | WriteError            // the port's `write` raised

  /** `send_data`: nothing is written unless the port is open and the whole input decodes. */
  function SendData(portOpen: bool, text: string, writeOk: bool): (o: SendOutcome)
    ensures o.Written? <==> portOpen && ParseHexInput(text).Parsed? && writeOk
    ensures o.Written? ==> o.bytes == ParseHexInput(text).bytes
    ensures o.ParseError? <==> portOpen && ParseHexInput(text).Failed?
    ensures o.ParseError? ==> o.error == ParseHexInput(text).error
    ensures o == NotConnected <==> !portOpen
    ensures o == WriteError <==> portOpen && ParseHexInput(text).Parsed? && !writeOk
  {
    if !portOpen then NotConnected
    else match ParseHexInput(text)
      case Failed(e) => ParseError(e)
      case Parsed(bs) => if writeOk then Written(bs) else WriteError
  }
}
