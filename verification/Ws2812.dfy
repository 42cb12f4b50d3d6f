/** The WS2812 LED strip: pixels in a byte buffer, and its translation to RMT symbols
    (led_strip_rmt_ws2812.c). */
module Ws2812 {
  import opened Basics

  datatype Item = Item(ticks0: nat, level0: nat, ticks1: nat, level1: nat)

  // ---- Translation ----

  /** b shifted right by k. */
  function Shifted(b: nat, k: nat): nat {
    if k == 0 then b else Shifted(b, k - 1) / 2
  }

  /** The bit of b with weight 2^(7 - i): the most significant one first. */
  predicate BitAt(b: Byte, i: nat)
    requires i < 8
  {
    Shifted(b, 7 - i) % 2 == 1
  }

  /** The symbol at position k of the stream of all bytes. */
  function Symbol(src: seq<Byte>, k: nat, bit0: Item, bit1: Item): Item
    requires k < 8 * |src|
  {
    if BitAt(src[k / 8], k % 8) then bit1 else bit0
  }

  /** The stream of all bytes. */
  function Stream(src: seq<Byte>, bit0: Item, bit1: Item): (items: seq<Item>)
    ensures |items| == 8 * |src| && forall k :: 0 <= k < |items| ==> items[k] == Symbol(src, k, bit0, bit1)
  {
    seq(8 * |src|, k requires 0 <= k < 8 * |src| => Symbol(src, k, bit0, bit1))
  }

  /** How many bytes one call translates. */
  function Translated(srcSize: nat, wanted: nat): (n: nat)
    ensures n <= srcSize && 8 * n < wanted + 8
    ensures n < srcSize ==> 8 * n >= wanted
  {
    if srcSize <= (wanted + 7) / 8 then srcSize else (wanted + 7) / 8
  }

  /** ws2812_rmt_adapter: whole bytes until the source is used up or enough symbols are there. */
  method RmtAdapter(src: seq<Byte>, dest: array<Item>, wanted: nat, bit0: Item, bit1: Item)
    returns (translatedSize: nat, itemNum: nat)
    requires 8 * Translated(|src|, wanted) <= dest.Length
    modifies dest
    ensures translatedSize == Translated(|src|, wanted) && itemNum == 8 * translatedSize
    ensures dest[..itemNum] == Stream(src[..translatedSize], bit0, bit1)
    ensures dest[itemNum..] == old(dest[itemNum..])
  {
    var size, num := 0, 0;
    while size < |src| && num < wanted
      invariant size <= Translated(|src|, wanted) && num == 8 * size
      invariant forall k :: 0 <= k < num ==> dest[k] == Symbol(src, k, bit0, bit1)
      invariant forall k :: num <= k < dest.Length ==> dest[k] == old(dest[k])
      decreases |src| - size
    {
      assert size < Translated(|src|, wanted);
      var i := 0;
      while i < 8
        invariant i <= 8 && num == 8 * size + i
        invariant forall k :: 0 <= k < num ==> dest[k] == Symbol(src, k, bit0, bit1)
        invariant forall k :: num <= k < dest.Length ==> dest[k] == old(dest[k])
      {
        assert num / 8 == size && num % 8 == i;
        dest[num] := if BitAt(src[size], i) then bit1 else bit0;
        num := num + 1;
        i := i + 1;
      }
      size := size + 1;
    }
    translatedSize, itemNum := size, num;
    assert dest[..itemNum] == Stream(src[..size], bit0, bit1);
  }

  /** What one call yields for the bytes not yet translated. */
  function OneCall(src: seq<Byte>, wanted: nat, bit0: Item, bit1: Item): seq<Item> {
    Stream(src[..Translated(|src|, wanted)], bit0, bit1)
  }

  /** The driver calls again with the rest, each time for some number of symbols, while some are left. */
  function Resumed(src: seq<Byte>, wanted: seq<nat>, bit0: Item, bit1: Item): seq<Item> {
    if wanted == [] then []
    else OneCall(src, wanted[0], bit0, bit1)
         + Resumed(src[Translated(|src|, wanted[0])..], wanted[1..], bit0, bit1)
  }

  /** How many bytes such calls translate in all. */
  function TranslatedAll(size: nat, wanted: seq<nat>): (n: nat)
    ensures n <= size
  {
    if wanted == [] then 0
    else Translated(size, wanted[0]) + TranslatedAll(size - Translated(size, wanted[0]), wanted[1..])
  }

  lemma {:induction false} StreamConcat(a: seq<Byte>, b: seq<Byte>, bit0: Item, bit1: Item)
    ensures Stream(a + b, bit0, bit1) == Stream(a, bit0, bit1) + Stream(b, bit0, bit1)
  {
    var both := Stream(a, bit0, bit1) + Stream(b, bit0, bit1);
    forall k | 0 <= k < 8 * |a + b| ensures Symbol(a + b, k, bit0, bit1) == both[k] {
      if k >= 8 * |a| {
        assert (k - 8 * |a|) / 8 == k / 8 - |a| && (k - 8 * |a|) % 8 == k % 8;
      }
    }
  }

  /** Resumed calls concatenate to the one-shot stream of the bytes they cover. */
  lemma {:induction false} ResumedIsOneShot(src: seq<Byte>, wanted: seq<nat>, bit0: Item, bit1: Item)
    ensures Resumed(src, wanted, bit0, bit1) == Stream(src[..TranslatedAll(|src|, wanted)], bit0, bit1)
    decreases |wanted|
  {
    if wanted == [] {
    } else {
      var n := Translated(|src|, wanted[0]);
      var rest := src[n..];
      var m := TranslatedAll(|rest|, wanted[1..]);
      ResumedIsOneShot(rest, wanted[1..], bit0, bit1);
      StreamConcat(src[..n], rest[..m], bit0, bit1);
      assert src[..n] + rest[..m] == src[..n + m];
    }
  }

  // ---- Decoding ----

  /** The byte that eight symbols stand for. */
  function Decoded(items: seq<Item>, at: nat, n: nat, bit1: Item): nat
    requires at + n <= |items|
  {
    if n == 0 then 0 else 2 * Decoded(items, at, n - 1, bit1) + (if items[at + n - 1] == bit1 then 1 else 0)
  }

  lemma {:induction false} ShiftedOut(b: Byte)
    ensures Shifted(b, 8) == 0
  {
    assert Shifted(b, 1) < 128;
    assert Shifted(b, 2) < 64;
    assert Shifted(b, 3) < 32;
    assert Shifted(b, 4) < 16;
    assert Shifted(b, 5) < 8;
    assert Shifted(b, 6) < 4;
    assert Shifted(b, 7) < 2;
  }

  lemma {:induction false} DecodedPrefix(src: seq<Byte>, j: nat, n: nat, bit0: Item, bit1: Item)
    requires j < |src| && n <= 8 && bit0 != bit1
    ensures Decoded(Stream(src, bit0, bit1), 8 * j, n, bit1) == Shifted(src[j], 8 - n)
  {
    if n == 0 {
      ShiftedOut(src[j]);
    } else {
      DecodedPrefix(src, j, n - 1, bit0, bit1);
      var k := 8 * j + n - 1;
      assert k / 8 == j && k % 8 == n - 1;
      assert Stream(src, bit0, bit1)[k] == bit1 <==> BitAt(src[j], n - 1);
    }
  }

  /** Every byte can be read back from its eight symbols, each of which is one of the two. */
  lemma {:induction false} StreamDecodes(src: seq<Byte>, j: nat, bit0: Item, bit1: Item)
    requires j < |src| && bit0 != bit1
    ensures Decoded(Stream(src, bit0, bit1), 8 * j, 8, bit1) == src[j]
    ensures forall k :: 8 * j <= k < 8 * j + 8 ==>
              Stream(src, bit0, bit1)[k] == bit0 || Stream(src, bit0, bit1)[k] == bit1
  {
    DecodedPrefix(src, j, 8, bit0, bit1);
  }

  // ---- Pixels ----

  datatype Op = SetPixel(index: nat, red: nat, green: nat, blue: nat) | Clear

  /** The buffer after an operation; an index past the strip is refused. */
  function Apply(buffer: seq<Byte>, op: Op): (r: seq<Byte>)
    ensures |r| == |buffer|
  {
    match op
    case SetPixel(p, red, green, blue) =>
      if 3 * p + 2 < |buffer|
      then buffer[3 * p := green % 256][3 * p + 1 := red % 256][3 * p + 2 := blue % 256]
      else buffer
    case Clear => seq(|buffer|, _ => 0)
  }

  function ApplyAll(buffer: seq<Byte>, ops: seq<Op>): (r: seq<Byte>)
    ensures |r| == |buffer|
  {
    if ops == [] then buffer else Apply(ApplyAll(buffer, ops[..|ops| - 1]), ops[|ops| - 1])
  }

  /** Green, red and blue of pixel p after the operations, by the last one that concerns it. */
  function LastColor(ops: seq<Op>, p: nat): (color: seq<Byte>)
    ensures |color| == 3
  {
    if ops == [] then [0, 0, 0]
    else
      match ops[|ops| - 1]
      case SetPixel(q, red, green, blue) =>
        if q == p then [green % 256, red % 256, blue % 256] else LastColor(ops[..|ops| - 1], p)
      case Clear => [0, 0, 0]
  }

  lemma {:induction false} BufferHoldsLastColor(length: nat, ops: seq<Op>, p: nat, c: nat)
    requires p < length && c < 3
    ensures ApplyAll(seq(3 * length, _ => 0), ops)[3 * p + c] == LastColor(ops, p)[c]
    decreases |ops|
  {
    if ops == [] {
    } else {
      BufferHoldsLastColor(length, ops[..|ops| - 1], p, c);
    }
  }

  /** After any operations on a cleared strip, symbols 24p to 24p + 23 of a refresh decode, eight at a
      time, to green, red and blue of pixel p as last set. */
  lemma {:induction false} RefreshShowsLastColor(length: nat, ops: seq<Op>, p: nat, c: nat, bit0: Item, bit1: Item)
    requires p < length && c < 3 && bit0 != bit1
    ensures var items := Stream(ApplyAll(seq(3 * length, _ => 0), ops), bit0, bit1);
            Decoded(items, 24 * p + 8 * c, 8, bit1) == LastColor(ops, p)[c]
  {
    var b := ApplyAll(seq(3 * length, _ => 0), ops);
    assert 8 * (3 * p + c) == 24 * p + 8 * c;
    BufferHoldsLastColor(length, ops, p, c);
    StreamDecodes(b, 3 * p + c, bit0, bit1);
  }

  class Strip {
    const stripLen: nat
    const buffer: array<Byte>

    ghost predicate Valid() { buffer.Length == 3 * stripLen }

    constructor (maxLeds: nat)
      ensures Valid() && stripLen == maxLeds && fresh(buffer) && buffer[..] == seq(3 * maxLeds, _ => 0)
    {
      stripLen := maxLeds;
      buffer := new Byte[3 * maxLeds](_ => 0);
    }

    /** ws2812_set_pixel; false: ESP_ERR_INVALID_ARG. */
    method SetPixel(index: nat, red: nat, green: nat, blue: nat) returns (ok: bool)
      requires Valid()
      modifies buffer
      ensures ok <==> index < stripLen
      ensures buffer[..] == Apply(old(buffer[..]), Op.SetPixel(index, red, green, blue))
    {
      if !(index < stripLen) {
        return false;
      }
      var start := index * 3;
      buffer[start + 0] := green % 256;
      buffer[start + 1] := red % 256;
      buffer[start + 2] := blue % 256;
      ok := true;
    }

    /** ws2812_clear, without the refresh. */
    method Clear()
      requires Valid()
      modifies buffer
      ensures buffer[..] == Apply(old(buffer[..]), Op.Clear)
    {
      forall i | 0 <= i < buffer.Length {
        buffer[i] := 0;
      }
    }
  }
}
