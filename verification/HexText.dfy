/** Hex text and addresses: parse_hex_str and parse_address (esp_gateway_param_parser.c) and
    convert_hex_string_to_bytes (app_rmaker_matter_controller_api.c). */
module HexText {
  import opened Basics

  datatype AddrType = AnyAddr | ShortAddr | LongAddr
  datatype Address = Address(kind: AddrType, bytes: seq<Byte>)

  /** The value of a hex digit, or 16 for any other character. */
  function Digit(c: char): (d: nat)
    ensures d <= 16
  {
    if '0' <= c <= '9' then (c - '0') as int
    else if 'a' <= c <= 'f' then (c - 'a') as int + 10
    else if 'A' <= c <= 'F' then (c - 'A') as int + 10
    else 16
  }

  ghost predicate AllDigits(t: string) { forall i :: 0 <= i < |t| ==> Digit(t[i]) < 16 }

  predicate HasPrefix(s: string) { |s| >= 2 && s[0] == '0' && s[1] == 'x' }

  /** parse_hex_str skips a prefix only when something follows it. */
  function Stripped(s: string): string { if |s| > 2 && HasPrefix(s) then s[2..] else s }

  /** The digits in the order in which they are read. */
  function InOrder(t: string, reverse: bool): string { if reverse then Reversed(t) else t }

  /** How many digits are read before the first other character, or the end. */
  function DigitCount(t: string): (n: nat)
    ensures n <= |t| && (n < |t| ==> Digit(t[n]) == 16)
    ensures forall i :: 0 <= i < n ==> Digit(t[i]) < 16
  {
    if t == [] || Digit(t[0]) == 16 then 0 else 1 + DigitCount(t[1..])
  }

  /** The j-th output byte after the first n digits read: two digits to a byte, high one first, or low
      one first when reading backwards; zero where there is no digit. */
  function ByteAt(t: string, n: nat, j: nat, reverse: bool): Byte
    requires n <= |t| && forall i :: 0 <= i < n ==> Digit(t[i]) < 16
  {
    var first := if 2 * j < n then Digit(t[2 * j]) else 0;
    var second := if 2 * j + 1 < n then Digit(t[2 * j + 1]) else 0;
    if reverse then 16 * second + first else 16 * first + second
  }

  function Bytes(t: string, n: nat, size: nat, reverse: bool): (bytes: seq<Byte>)
    requires n <= |t| && forall i :: 0 <= i < n ==> Digit(t[i]) < 16
    ensures |bytes| == size && forall j :: 0 <= j < size ==> bytes[j] == ByteAt(t, n, j, reverse)
  {
    seq(size, j requires 0 <= j < size => ByteAt(t, n, j, reverse))
  }

  /** parse_hex_str: the bytes, if it returns true. */
  function Parse(s: string, size: nat, reverse: bool): Option<seq<Byte>> {
    var t := InOrder(Stripped(s), reverse);
    if |t| > 2 * size || DigitCount(t) < |t| then None else Some(Bytes(t, |t|, size, reverse))
  }

  /** convert_hex_string_to_bytes. */
  function Convert(s: string, size: nat): Option<seq<Byte>> {
    if |s| != 2 * size || DigitCount(s) < |s| then None else Some(Bytes(s, |s|, size, false))
  }

  /** parse_address: what comes after the prefix decides the kind by its length. */
  function ParseAddress(input: string, wanted: AddrType): Option<Address> {
    if input == "" then None
    else
      var t := if HasPrefix(input) then input[2..] else input;
      if |t| == 16 && !wanted.ShortAddr? then WithKind(LongAddr, Parse(t, 8, true))
      else if |t| == 4 && !wanted.LongAddr? then WithKind(ShortAddr, Parse(t, 2, true))
      else None
  }

  function WithKind(kind: AddrType, bytes: Option<seq<Byte>>): Option<Address> {
    if bytes.None? then None else Some(Address(kind, bytes.value))
  }

  // ---- Round trips ----

  /** t is hex text of the bytes, in either case of letters. */
  ghost predicate Denotes(t: string, bytes: seq<Byte>) {
    |t| == 2 * |bytes| && AllDigits(t)
    && forall j :: 0 <= j < |bytes| ==> Digit(t[2 * j]) == bytes[j] / 16 && Digit(t[2 * j + 1]) == bytes[j] % 16
  }

  function HexDigit(d: nat, upper: bool): (c: char)
    requires d < 16
    ensures Digit(c) == d
  {
    if d < 10 then '0' + d as char else (if upper then 'A' else 'a') + (d - 10) as char
  }

  function HexOf(bytes: seq<Byte>, upper: bool): string
    decreases |bytes|
  {
    if bytes == [] then []
    else [HexDigit(bytes[0] / 16, upper), HexDigit(bytes[0] % 16, upper)] + HexOf(bytes[1..], upper)
  }

  /** The digits of either case count what they stand for, and no other character is a digit. */
  lemma {:induction false} DigitReads(d: nat, c: char)
    requires d < 16
    ensures Digit("0123456789abcdef"[d]) == d == Digit("0123456789ABCDEF"[d])
    ensures Digit(c) < 16 <==> c in "0123456789abcdef" || c in "0123456789ABCDEF"
  {
    if 'a' <= c <= 'f' {
      assert "0123456789abcdef"[10 + (c - 'a') as int] == c;
    } else if 'A' <= c <= 'F' {
      assert "0123456789ABCDEF"[10 + (c - 'A') as int] == c;
    } else if '0' <= c <= '9' {
      assert "0123456789abcdef"[(c - '0') as int] == c;
    }
  }

  lemma {:induction false} DenotesCons(b: Byte, high: char, low: char, t: string, bytes: seq<Byte>)
    requires Denotes(t, bytes) && Digit(high) == b / 16 && Digit(low) == b % 16
    ensures Denotes([high, low] + t, [b] + bytes)
  {
    var longer := [high, low] + t;
    forall i | 0 <= i < |longer| ensures Digit(longer[i]) < 16 {
      if i >= 2 {
        assert longer[i] == t[i - 2];
      }
    }
    forall j | 0 < j < |bytes| + 1
      ensures Digit(longer[2 * j]) == ([b] + bytes)[j] / 16 && Digit(longer[2 * j + 1]) == ([b] + bytes)[j] % 16
    {
      assert longer[2 * j] == t[2 * (j - 1)] && longer[2 * j + 1] == t[2 * (j - 1) + 1];
    }
  }

  lemma {:induction false} HexOfDenotes(bytes: seq<Byte>, upper: bool)
    ensures Denotes(HexOf(bytes, upper), bytes)
    decreases |bytes|
  {
    if bytes == [] {
    } else {
      HexOfDenotes(bytes[1..], upper);
      var high, low := HexDigit(bytes[0] / 16, upper), HexDigit(bytes[0] % 16, upper);
      DenotesCons(bytes[0], high, low, HexOf(bytes[1..], upper), bytes[1..]);
      assert bytes == [bytes[0]] + bytes[1..];
    }
  }

  lemma {:induction false} DigitsHaveNoPrefix(t: string)
    requires AllDigits(t)
    ensures !HasPrefix(t) && Stripped(t) == t
  {
    if |t| >= 2 {
      assert Digit(t[1]) < 16;
    }
  }

  lemma {:induction false} CountAll(t: string)
    ensures DigitCount(t) == |t| <==> AllDigits(t)
  {
  }

  lemma {:induction false} ReversedDigits(t: string)
    ensures AllDigits(Reversed(t)) <==> AllDigits(t)
  {
    if AllDigits(Reversed(t)) {
      forall i | 0 <= i < |t| ensures Digit(t[i]) < 16 {
        assert t[i] == Reversed(t)[|t| - 1 - i];
      }
    }
  }

  lemma {:induction false} StripsToDigitsIff(s: string, max: nat)
    ensures |Stripped(s)| <= max && AllDigits(Stripped(s)) <==>
            || (|s| <= max && AllDigits(s))
            || (2 < |s| <= max + 2 && s[0] == '0' && s[1] == 'x' && AllDigits(s[2..]))
  {
    if |s| > 2 && HasPrefix(s) {
      assert Digit(s[1]) == 16;
    }
  }

  /** What is accepted: at most two digits per byte of the buffer, and nothing but digits, behind a "0x"
      or not. A prefix that nothing follows is no number. */
  lemma {:induction false} AcceptsIff(s: string, size: nat, reverse: bool)
    ensures Parse(s, size, reverse).Some? <==> |Stripped(s)| <= 2 * size && AllDigits(Stripped(s))
    ensures Parse(s, size, reverse).Some? <==>
            || (|s| <= 2 * size && AllDigits(s))
            || (2 < |s| <= 2 * size + 2 && s[0] == '0' && s[1] == 'x' && AllDigits(s[2..]))
  {
    CountAll(InOrder(Stripped(s), reverse));
    ReversedDigits(Stripped(s));
    StripsToDigitsIff(s, 2 * size);
  }

  /** The bytes of a text, zero-filled up to the size of the buffer. */
  function Filled(bytes: seq<Byte>, size: nat): seq<Byte>
    requires |bytes| <= size
  {
    bytes + seq(size - |bytes|, _ => 0)
  }

  lemma {:induction false} ForwardBytes(t: string, bytes: seq<Byte>, size: nat)
    requires Denotes(t, bytes) && |bytes| <= size
    ensures Bytes(t, |t|, size, false) == Filled(bytes, size)
  {
  }

  lemma {:induction false} ReverseBytes(t: string, bytes: seq<Byte>, size: nat)
    requires Denotes(t, bytes) && |bytes| <= size
    ensures AllDigits(Reversed(t)) && Bytes(Reversed(t), |t|, size, true) == Filled(Reversed(bytes), size)
  {
    var r := Reversed(t);
    ReversedDigits(t);
    forall j | 0 <= j < size ensures ByteAt(r, |r|, j, true) == Filled(Reversed(bytes), size)[j] {
      if j < |bytes| {
        var k := |bytes| - 1 - j;
        assert r[2 * j] == t[2 * k + 1] && r[2 * j + 1] == t[2 * k];
        assert Reversed(bytes)[j] == bytes[k];
      }
    }
  }

  /** Forward parsing returns the bytes; reverse parsing returns them reversed; the rest is zero. */
  lemma {:induction false} ParseRoundTrip(t: string, bytes: seq<Byte>, size: nat)
    requires Denotes(t, bytes) && |bytes| <= size
    ensures Parse(t, size, false) == Some(Filled(bytes, size))
    ensures Parse(t, size, true) == Some(Filled(Reversed(bytes), size))
  {
    DigitsHaveNoPrefix(t);
    AcceptsIff(t, size, false);
    AcceptsIff(t, size, true);
    ForwardBytes(t, bytes, size);
    ReverseBytes(t, bytes, size);
  }

  /** With an odd number of digits the one left over is the high half of the last byte when reading
      forwards, and its low half when reading backwards. */
  lemma {:induction false} OddDigit(t: string, bytes: seq<Byte>, c: char, size: nat)
    requires Denotes(t, bytes) && Digit(c) < 16 && |bytes| < size
    ensures Parse(t + [c], size, false) == Some(Filled(bytes + [16 * Digit(c)], size))
    ensures Parse([c] + t, size, true) == Some(Filled(Reversed(bytes) + [Digit(c)], size))
  {
    assert AllDigits(t + [c]) && AllDigits([c] + t);
    DigitsHaveNoPrefix(t + [c]);
    DigitsHaveNoPrefix([c] + t);
    AcceptsIff(t + [c], size, false);
    AcceptsIff([c] + t, size, true);
    OddForward(t, bytes, c, size);
    OddBackward(t, bytes, c, size);
  }

  lemma {:induction false} OddForward(t: string, bytes: seq<Byte>, c: char, size: nat)
    requires Denotes(t, bytes) && Digit(c) < 16 && |bytes| < size && AllDigits(t + [c])
    ensures Bytes(t + [c], |t + [c]|, size, false) == Filled(bytes + [16 * Digit(c)], size)
  {
  }

  lemma {:induction false} OddBackward(t: string, bytes: seq<Byte>, c: char, size: nat)
    requires Denotes(t, bytes) && Digit(c) < 16 && |bytes| < size && AllDigits([c] + t)
    ensures AllDigits(Reversed([c] + t))
    ensures Bytes(Reversed([c] + t), |t| + 1, size, true) == Filled(Reversed(bytes) + [Digit(c)], size)
  {
    var r := Reversed([c] + t);
    ReversedDigits([c] + t);
    forall j | 0 <= j < size ensures ByteAt(r, |r|, j, true) == Filled(Reversed(bytes) + [Digit(c)], size)[j] {
      if j < |bytes| {
        var k := |bytes| - 1 - j;
        assert r[2 * j] == t[2 * k + 1] && r[2 * j + 1] == t[2 * k];
      }
    }
  }

  /** A prefix makes no difference. */
  lemma {:induction false} PrefixIsSkipped(t: string, size: nat, reverse: bool)
    requires t != "" && AllDigits(t)
    ensures Parse("0x" + t, size, reverse) == Parse(t, size, reverse)
  {
    assert ("0x" + t)[2..] == t;
    DigitsHaveNoPrefix(t);
  }

  /** On texts of exactly two digits per byte the two parsers agree, except that one of them takes a
      prefix for part of the text and the other does not. */
  lemma {:induction false} ParsersAgreeIff(s: string, size: nat)
    requires |s| == 2 * size
    ensures Parse(s, size, false) == Convert(s, size) <==> !(|s| > 2 && HasPrefix(s) && AllDigits(s[2..]))
  {
    AcceptsIff(s, size, false);
    CountAll(s);
    if |s| > 2 && HasPrefix(s) {
      assert Digit(s[1]) == 16;
    }
  }

  /** The text of an address, prefixed or not, gives its bytes in reverse order. */
  lemma {:induction false} AddressRoundTrip(t: string, bytes: seq<Byte>, wanted: AddrType)
    requires Denotes(t, bytes) && (|bytes| == 8 || |bytes| == 2)
    ensures var kind := if |bytes| == 8 then LongAddr else ShortAddr;
            && ParseAddress(t, wanted) == ParseAddress("0x" + t, wanted)
            && ParseAddress(t, wanted) ==
                 (if wanted.AnyAddr? || wanted == kind then Some(Address(kind, Reversed(bytes))) else None)
  {
    DigitsHaveNoPrefix(t);
    assert ("0x" + t)[2..] == t;
    ParseRoundTrip(t, bytes, |bytes|);
    assert Filled(Reversed(bytes), |bytes|) == Reversed(bytes);
  }

  /** What parse_address accepts: the right length after the prefix, and digits only; but a second
      prefix is skipped too, so that an address with too few digits is accepted after two of them. */
  lemma {:induction false} AddressAcceptsIff(input: string, wanted: AddrType)
    ensures var t := if HasPrefix(input) then input[2..] else input;
            ParseAddress(input, wanted).Some? <==>
              && ((|t| == 16 && !wanted.ShortAddr?) || (|t| == 4 && !wanted.LongAddr?))
              && (AllDigits(t) || (HasPrefix(t) && AllDigits(t[2..])))
  {
    var t := if HasPrefix(input) then input[2..] else input;
    if |t| == 16 {
      AcceptsIff(t, 8, true);
    } else if |t| == 4 {
      AcceptsIff(t, 2, true);
    }
    if AllDigits(t) {
      DigitsHaveNoPrefix(t);
    }
  }

  lemma {:induction false} TwoPrefixesAccepted(t: string, b: Byte)
    requires Denotes(t, [b])
    ensures ParseAddress("0x0x" + t, AnyAddr) == Some(Address(ShortAddr, [b, 0]))
  {
    assert ("0x0x" + t)[2..] == "0x" + t;
    PrefixIsSkipped(t, 2, true);
    ParseRoundTrip(t, [b], 2);
    assert Filled(Reversed([b]), 2) == [b, 0];
  }

  // ---- The loops ----

  /** Reading one more digit changes one output byte: it is started by a digit at an even place and
      completed by one at an odd place. */
  lemma {:induction false} NextDigit(t: string, i: nat, reverse: bool)
    requires i < |t| && forall k :: 0 <= k <= i ==> Digit(t[k]) < 16
    ensures forall j: nat :: j != i / 2 ==> ByteAt(t, i + 1, j, reverse) == ByteAt(t, i, j, reverse)
    ensures var d := Digit(t[i]);
            ByteAt(t, i + 1, i / 2, reverse) ==
              if i % 2 == 1 then ByteAt(t, i, i / 2, reverse) + (if reverse then 16 * d else d)
              else if reverse then d else 16 * d
  {
  }

  /** Where the digits are read: from the front of the text onwards, or from its end backwards. */
  lemma {:induction false} Positions(input: string, reverse: bool, position: int, delta: int)
    requires var start := if |input| > 2 && HasPrefix(input) then 2 else 0;
             if reverse then position == |input| - 1 && delta == -1 else position == start && delta == 1
    ensures var t := InOrder(Stripped(input), reverse);
            forall i :: 0 <= i < |t| ==> 0 <= position + delta * i < |input| && input[position + delta * i] == t[i]
  {
    var t := InOrder(Stripped(input), reverse);
    forall i | 0 <= i < |t| ensures 0 <= position + delta * i < |input| && input[position + delta * i] == t[i] {
      assert delta * i == if reverse then -i else i;
    }
  }

  /** parse_hex_str, whose lengths are single bytes. Unless the text is too long, the buffer holds the
      digits before the first other character, zero-filled. */
  method ParseHexStr(input: string, buffer: array<Byte>, reverse: bool) returns (ok: bool)
    requires |input| < 256 && buffer.Length < 256
    modifies buffer
    ensures ok <==> Parse(input, buffer.Length, reverse).Some?
    ensures ok ==> buffer[..] == Parse(input, buffer.Length, reverse).value
    ensures var t := InOrder(Stripped(input), reverse);
            buffer[..] == (if |t| > 2 * buffer.Length then old(buffer[..])
                           else Bytes(t, DigitCount(t), buffer.Length, reverse))
  {
    var start, len := 0, |input|;
    if len > 2 && input[0] == '0' && input[1] == 'x' {
      len := len - 2;
      start := 2;
    }
    var position, delta := start, 1;
    if reverse {
      position := start + len - 1;
      delta := -1;
    }
    ghost var t := InOrder(Stripped(input), reverse);
    Positions(input, reverse, position, delta);
    if len > 2 * buffer.Length {
      return false;
    }
    var n := ReadDigits(input, position, delta, len, buffer, reverse, t);
    ok := n == len;
  }

  /** The loop of parse_hex_str: n digits are read, from position on in steps of delta. */
  method ReadDigits(input: string, position: int, delta: int, len: nat, buffer: array<Byte>, reverse: bool,
                    ghost t: string)
    returns (n: nat)
    requires |t| == len <= 2 * buffer.Length
    requires forall i :: 0 <= i < len ==> 0 <= position + delta * i < |input| && input[position + delta * i] == t[i]
    modifies buffer
    ensures n == DigitCount(t) && buffer[..] == Bytes(t, n, buffer.Length, reverse)
  {
    forall j | 0 <= j < buffer.Length {
      buffer[j] := 0;
    }
    var at, out := position, 0;
    n := 0;
    while n < len
      invariant n <= len && out == n / 2 && at == position + delta * n
      invariant forall k :: 0 <= k < n ==> Digit(t[k]) < 16
      invariant forall j :: 0 <= j < buffer.Length ==> buffer[j] == ByteAt(t, n, j, reverse)
    {
      assert input[position + delta * n] == t[n];
      var nibble := Digit(input[at]);
      if nibble > 15 {
        break;
      }
      NextDigit(t, n, reverse);
      if n % 2 == 1 {
        // The half that is written here is still zero, so that adding is the bitwise or.
        buffer[out] := buffer[out] + (if reverse then 16 * nibble else nibble);
        out := out + 1;
      } else {
        buffer[out] := if reverse then nibble else 16 * nibble;
      }
      n := n + 1;
      assert position + delta * n == at + delta;
      at := at + delta;
    }
    CountIs(t, n);
    assert buffer[..] == Bytes(t, n, buffer.Length, reverse);
  }

  lemma {:induction false} CountIs(t: string, i: nat)
    requires i <= |t| && (i < |t| ==> Digit(t[i]) == 16) && forall k :: 0 <= k < i ==> Digit(t[k]) < 16
    ensures DigitCount(t) == i
  {
  }

  /** convert_hex_string_to_bytes. */
  method ConvertHexString(str: string, bytes: array<Byte>) returns (ok: bool)
    modifies bytes
    ensures ok <==> Convert(str, bytes.Length).Some?
    ensures ok ==> bytes[..] == Convert(str, bytes.Length).value
  {
    if |str| != bytes.Length * 2 {
      return false;
    }
    var i := 0;
    while i < bytes.Length
      invariant i <= bytes.Length && forall k :: 0 <= k < 2 * i ==> Digit(str[k]) < 16
      invariant forall j :: 0 <= j < i ==> bytes[j] == ByteAt(str, 2 * i, j, false)
    {
      var high := Digit(str[2 * i]);
      var low := Digit(str[2 * i + 1]);
      if high == 16 || low == 16 {
        CountIs(str, if high == 16 then 2 * i else 2 * i + 1);
        return false;
      }
      bytes[i] := 16 * high + low;
      i := i + 1;
    }
    CountIs(str, |str|);
    return true;
  }
}
