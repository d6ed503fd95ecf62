/** tools/bin2uint8_t.c: turns a binary file (the FPGA bitstream) into a C header declaring
    `const uint8_t gw1n_image[]`, twelve `0xNN` items per line. */
module Bin2Header {
  import opened Bytes

  const PREFIX: string := "#ifndef __GW1N_IMAGE_H__\n#define __GW1N_IMAGE_H__\n\n#include <stdint.h>\n\nconst uint8_t gw1n_image[] = {"
  const SUFFIX: string := "\n};\n\n#endif // __GW1N_IMAGE_H__\n"
  /** Written before every twelfth item. */
  const LINE_START: string := "\n    "
  const SEPARATOR: string := ", "
  const ITEMS_PER_LINE: nat := 12

  /** An upper-case hexadecimal digit, as `%X` prints it. */
  function UpperDigit(d: nat): (c: char)
    requires d < 16
    ensures IsUpperHex(c) && UpperValue(c) == d
  {
    if d < 10 then ('0' as int + d) as char else ('A' as int + d - 10) as char
  }

  predicate IsUpperHex(c: char)
  {
    '0' <= c <= '9' || 'A' <= c <= 'F'
  }

  function UpperValue(c: char): (d: nat)
    requires IsUpperHex(c)
    ensures d < 16
  {
    if '0' <= c <= '9' then c as int - '0' as int else c as int - 'A' as int + 10
  }

  /** `"0x%02X"`: the byte in two upper-case digits. */
  function Token(b: byte): (t: string)
    ensures |t| == 4 && t[..2] == "0x" && IsUpperHex(t[2]) && IsUpperHex(t[3])
    ensures UpperValue(t[2]) * 16 + UpperValue(t[3]) == b
  {
    "0x" + [UpperDigit(b / 16), UpperDigit(b % 16)]
  }

  /** What one pass of the loop writes for byte `i` of `n`. */
  function Item(i: nat, n: nat, b: byte): string
  {
    (if i % ITEMS_PER_LINE == 0 then LINE_START else "") + Token(b) + (if i + 1 < n then SEPARATOR else "")
  }

  /** What the first `k` passes of the loop write. */
  function ItemsUpTo(data: seq<byte>, k: nat): string
    requires k <= |data|
    decreases k
  {
    if k == 0 then "" else ItemsUpTo(data, k - 1) + Item(k - 1, |data|, data[k - 1])
  }

  /** What the passes from `k` on write. */
  function ItemsFrom(data: seq<byte>, k: nat): string
    requires k <= |data|
    decreases |data| - k
  {
    if k == |data| then "" else Item(k, |data|, data[k]) + ItemsFrom(data, k + 1)
  }

  /** The whole header for the bytes of the input file. */
  function Header(data: seq<byte>): string
  {
    PREFIX + ItemsUpTo(data, |data|) + SUFFIX
  }

  /** `convert_to_header`, from the bytes read into `buffer` to the text written. */
  method ConvertToHeader(buffer: array<byte>) returns (text: string)
    ensures text == Header(buffer[..])
  {
    text := PREFIX;
    var fileSize := buffer.Length;
    for i := 0 to fileSize
      invariant text == PREFIX + ItemsUpTo(buffer[..], i)
    {
      text := WriteItem(text, i, fileSize, buffer[i]);
      assert ItemsUpTo(buffer[..], i + 1) == ItemsUpTo(buffer[..], i) + Item(i, fileSize, buffer[i]);
      Regroup(PREFIX, ItemsUpTo(buffer[..], i), Item(i, fileSize, buffer[i]));
    }
    text := text + SUFFIX;
  }

  /** The body of the loop of `convert_to_header` for byte `i` of `n`: a line start before every
      twelfth item, the token, and a separator unless it is the last byte. */
  method WriteItem(text: string, i: nat, n: nat, b: byte) returns (out: string)
    requires i < n
    ensures out == text + Item(i, n, b)
  {
    ghost var item := "";
    out := text;
    if i % ITEMS_PER_LINE == 0 {
      out := out + LINE_START;
      item := LINE_START;
    }
    assert out == text + item;
    Regroup(text, item, Token(b));
    out := out + Token(b);
    item := item + Token(b);
    if i < n - 1 {
      Regroup(text, item, SEPARATOR);
      out := out + SEPARATOR;
      item := item + SEPARATOR;
    }
    assert item == Item(i, n, b);
  }

  /** `main`: anything but exactly two arguments (three words counting the program name) prints the
      usage and exits with 1; otherwise the header of `input` is written and the exit code is 0. */
  method RunTool(argv: seq<string>, input: seq<byte>) returns (exitCode: int, written: Option<string>)
    ensures |argv| != 3 ==> exitCode == 1 && written == None
    ensures |argv| == 3 ==> exitCode == 0 && written == Some(Header(input))
  {
    if |argv| != 3 {
      return 1, None;
    }
    var buffer := new byte[|input|](i requires 0 <= i < |input| => input[i]);
    assert buffer[..] == input;
    var text := ConvertToHeader(buffer);
    return 0, Some(text);
  }

  /** Reads a C initialiser list of the form the tool writes: `0xNN` tokens with upper-case digits,
      with line starts and separators between them. */
  function ParseItems(s: string): Option<seq<byte>>
    decreases |s|
  {
    if s == [] then Some([])
    else if |s| >= 5 && s[..5] == LINE_START then ParseItems(s[5..])
    else if |s| >= 2 && s[..2] == SEPARATOR then ParseItems(s[2..])
    else if |s| >= 4 && s[..2] == "0x" && IsUpperHex(s[2]) && IsUpperHex(s[3]) then
      match ParseItems(s[4..])
      case Some(rest) => Some([UpperValue(s[2]) * 16 + UpperValue(s[3])] + rest)
      case None => None
    else None
  }

  lemma ParseItem(i: nat, n: nat, b: byte, rest: string, tail: seq<byte>)
    requires ParseItems(rest) == Some(tail)
    ensures ParseItems(Item(i, n, b) + rest) == Some([b] + tail)
  {
    var sep := if i + 1 < n then SEPARATOR else "";
    var fromToken := Token(b) + (sep + rest);
    ParseSeparator(i + 1 < n, rest);
    ParseToken(b, sep + rest, tail);
    ParseLineStart(i % ITEMS_PER_LINE == 0, fromToken);
    ItemShape(i, n, b, rest);
  }

  /** An item followed by more text, regrouped as line start, then token, then separator and text. */
  lemma ItemShape(i: nat, n: nat, b: byte, rest: string)
    ensures Item(i, n, b) + rest ==
              (if i % ITEMS_PER_LINE == 0 then LINE_START else "") +
              (Token(b) + ((if i + 1 < n then SEPARATOR else "") + rest))
  {
  }

  lemma ParseSeparator(present: bool, rest: string)
    ensures ParseItems((if present then SEPARATOR else "") + rest) == ParseItems(rest)
  {
    if present {
      var s := SEPARATOR + rest;
      assert s[0] == ',' && s[..2] == SEPARATOR && s[2..] == rest;
      if |s| >= 5 {
        assert s[..5][0] == ',';
      }
    } else {
      assert "" + rest == rest;
    }
  }

  lemma ParseLineStart(present: bool, rest: string)
    ensures ParseItems((if present then LINE_START else "") + rest) == ParseItems(rest)
  {
    if present {
      var s := LINE_START + rest;
      assert s[..5] == LINE_START && s[5..] == rest;
    } else {
      assert "" + rest == rest;
    }
  }

  lemma ParseToken(b: byte, rest: string, tail: seq<byte>)
    requires ParseItems(rest) == Some(tail)
    ensures ParseItems(Token(b) + rest) == Some([b] + tail)
  {
    var t := Token(b);
    var s := t + rest;
    assert s[..2] == "0x" && s[2] == t[2] && s[3] == t[3] && s[4..] == rest;
    if |s| >= 5 {
      assert s[..5][0] == '0';
    }
    assert s[..2][0] == '0';
  }

  /** The items from `k` on read back as the bytes from `k` on. */
  lemma {:induction false} ParseItemsFrom(data: seq<byte>, k: nat)
    requires k <= |data|
    ensures ParseItems(ItemsFrom(data, k)) == Some(data[k..])
    decreases |data| - k
  {
    if k < |data| {
      ParseItemsFrom(data, k + 1);
      ParseItem(k, |data|, data[k], ItemsFrom(data, k + 1), data[k + 1..]);
      assert ItemsFrom(data, k) == Item(k, |data|, data[k]) + ItemsFrom(data, k + 1);
      assert [data[k]] + data[k + 1..] == data[k..];
    } else {
      assert data[k..] == [];
    }
  }

  /** The loop's text so far and the text still to come make up the whole body. */
  lemma {:induction false} ItemsSplit(data: seq<byte>, k: nat)
    requires k <= |data|
    ensures ItemsUpTo(data, k) + ItemsFrom(data, k) == ItemsFrom(data, 0)
    decreases k
  {
    if k > 0 {
      ItemsSplit(data, k - 1);
      var item := Item(k - 1, |data|, data[k - 1]);
      assert ItemsUpTo(data, k) == ItemsUpTo(data, k - 1) + item;
      assert ItemsFrom(data, k - 1) == item + ItemsFrom(data, k);
      Regroup(ItemsUpTo(data, k - 1), item, ItemsFrom(data, k));
    }
  }

  lemma Regroup(a: string, b: string, c: string)
    ensures (a + b) + c == a + (b + c)
  {
  }

  /** Round trip: the array in the generated header holds exactly the input bytes, in order, one
      `0xNN` token each. */
  lemma HeaderRoundTrip(data: seq<byte>)
    ensures var h := Header(data);
            && h[..|PREFIX|] == PREFIX && h[|h| - |SUFFIX|..] == SUFFIX
            && ParseItems(h[|PREFIX|..|h| - |SUFFIX|]) == Some(data)
  {
    var body := ItemsUpTo(data, |data|);
    ItemsSplit(data, |data|);
    ParseItemsFrom(data, 0);
    var h := Header(data);
    assert h[|PREFIX|..|h| - |SUFFIX|] == body;
    assert body + "" == body;
  }

  /** An empty input gives the prefix directly followed by the suffix. */
  lemma EmptyHeader()
    ensures Header([]) == PREFIX + SUFFIX
  {
  }
}
