/** Git's packet framing and the reader that undoes it, whatever the chunks the body
    arrives in. */
module PktLine {
  import opened Bits
  import opened Options

  const LENGTH_BYTES := 4
  const MAX_BYTES := 65520
  const MAX_PAYLOAD_BYTES := 65516

  // ---- Lengths ------------------------------------------------------------------------------

  function HexDigit(n: nat): byte
    requires n < 16
  {
    if n < 10 then 48 + n else 87 + n
  }

  /** Git writes lowercase; either case is read. */
  function DigitValue(b: byte): Option<nat> {
    if 48 <= b < 58 then Some(b - 48)
    else if 97 <= b < 103 then Some(b - 87)
    else if 65 <= b < 71 then Some(b - 55)
    else None
  }

  function HexLength(n: nat): seq<byte>
    requires n < 65536
  {
    [HexDigit(n / 4096), HexDigit(n / 256 % 16), HexDigit(n / 16 % 16), HexDigit(n % 16)]
  }

  function DeclaredLength(text: seq<byte>): Option<nat>
    requires |text| == LENGTH_BYTES
  {
    var a, b, c, d := DigitValue(text[0]), DigitValue(text[1]), DigitValue(text[2]), DigitValue(text[3]);
    if a.Some? && b.Some? && c.Some? && d.Some? then Some(4096 * a.value + 256 * b.value + 16 * c.value + d.value)
      else None
  }

  lemma DigitIsRead(n: nat)
    requires n < 16
    ensures DigitValue(HexDigit(n)) == Some(n)
  {
  }

  lemma Nibbles(n: nat)
    requires n < 65536
    ensures n == 4096 * (n / 4096) + 256 * (n / 256 % 16) + 16 * (n / 16 % 16) + n % 16
  {
    assert n / 16 / 16 == n / 256 && n / 256 / 16 == n / 4096;
    assert n == 16 * (n / 16) + n % 16;
    assert n / 16 == 16 * (n / 16 / 16) + n / 16 % 16;
  }

  lemma LengthIsRead(n: nat)
    requires n < 65536
    ensures DeclaredLength(HexLength(n)) == Some(n)
  {
    hide HexDigit, DigitValue;
    Nibbles(n);
    DigitIsRead(n / 4096);
    DigitIsRead(n / 256 % 16);
    DigitIsRead(n / 16 % 16);
    DigitIsRead(n % 16);
  }

  // ---- Lines ----------------------------------------------------------------------------------

  function Line(payload: seq<byte>): seq<byte>
    requires |payload| <= MAX_PAYLOAD_BYTES
  {
    HexLength(|payload| + LENGTH_BYTES) + payload
  }

  datatype Packet =
    | Payload(bytes: seq<byte>)
    | Flush
    | Delimiter
    | ResponseEnd
    | End
    | Malformed

  /** The first packet of `bytes` and how many of them it takes. */
  function First(bytes: seq<byte>, v2: bool): (r: (Packet, nat))
    ensures r.1 <= |bytes|
  {
    if |bytes| < LENGTH_BYTES then (if bytes == [] then End else Malformed, 0)
    else
      var length := DeclaredLength(bytes[..LENGTH_BYTES]);
      if length.None? then (Malformed, 0)
      else if length.value == 0 then (Flush, LENGTH_BYTES)
      else if v2 && length.value == 1 then (Delimiter, LENGTH_BYTES)
      else if v2 && length.value == 2 then (ResponseEnd, LENGTH_BYTES)
      else if length.value < LENGTH_BYTES || length.value > MAX_BYTES || |bytes| < length.value then (Malformed, 0)
      else (Payload(bytes[LENGTH_BYTES..length.value]), length.value)
  }

  /** A framed payload is read back, and nothing past it. */
  lemma LineIsRead(payload: seq<byte>, rest: seq<byte>, v2: bool)
    requires |payload| <= MAX_PAYLOAD_BYTES
    ensures First(Line(payload) + rest, v2) == (Payload(payload), |Line(payload)|)
  {
    hide DeclaredLength;
    var n := |payload| + LENGTH_BYTES;
    LengthIsRead(n);
    var bytes := Line(payload) + rest;
    assert bytes[..LENGTH_BYTES] == HexLength(n);
    assert bytes[LENGTH_BYTES..n] == payload;
  }

  /** `b` is the hexadecimal digit of value `v`, in either case. */
  predicate IsDigit(b: byte, v: nat) {
    v < 16 && (b == "0123456789abcdef"[v] as int || b == "0123456789ABCDEF"[v] as int)
  }

  /** The text begins with four digits that spell `n`. */
  predicate Declares(bytes: seq<byte>, n: nat) {
    && |bytes| >= 4 && n < 65536
    && IsDigit(bytes[0], n / 4096) && IsDigit(bytes[1], n / 256 % 16) && IsDigit(bytes[2], n / 16 % 16)
    && IsDigit(bytes[3], n % 16)
  }

  lemma DigitIff(b: byte, v: nat)
    ensures DigitValue(b) == Some(v) <==> IsDigit(b, v)
    ensures v < 16 ==> HexDigit(v) == "0123456789abcdef"[v] as int
  {
  }

  lemma NibblesOf(a: nat, b: nat, c: nat, d: nat)
    requires a < 16 && b < 16 && c < 16 && d < 16
    ensures var n := 4096 * a + 256 * b + 16 * c + d;
      n < 65536 && n / 4096 == a && n / 256 % 16 == b && n / 16 % 16 == c && n % 16 == d
  {
    var n := 4096 * a + 256 * b + 16 * c + d;
    assert n / 16 == 256 * a + 16 * b + c && n / 256 == 16 * a + b;
  }

  lemma DeclaredIff(text: seq<byte>, n: nat)
    requires |text| == LENGTH_BYTES
    ensures DeclaredLength(text) == Some(n) <==> Declares(text, n)
  {
    hide DigitValue, IsDigit, HexDigit;
    forall i | 0 <= i < 4
      ensures forall v: nat :: DigitValue(text[i]) == Some(v) <==> IsDigit(text[i], v)
    {
      forall v: nat
        ensures DigitValue(text[i]) == Some(v) <==> IsDigit(text[i], v)
      {
        DigitIff(text[i], v);
      }
    }
    if DeclaredLength(text).Some? {
      var a, b, c, d := DigitValue(text[0]), DigitValue(text[1]), DigitValue(text[2]), DigitValue(text[3]);
      DigitsAreSmall(text, a.value, b.value, c.value, d.value);
      NibblesOf(a.value, b.value, c.value, d.value);
    }
    if Declares(text, n) {
      Nibbles(n);
    }
  }

  lemma DigitsAreSmall(text: seq<byte>, a: nat, b: nat, c: nat, d: nat)
    requires |text| == 4 && IsDigit(text[0], a) && IsDigit(text[1], b) && IsDigit(text[2], c) && IsDigit(text[3], d)
    ensures a < 16 && b < 16 && c < 16 && d < 16
  {
  }

  /** Exactly what is read as a packet: lengths count their own four digits, up to 65520; 0000 is a flush; 0001 and
      0002 mean something in version 2 only; anything else is malformed. */
  lemma FirstIff(bytes: seq<byte>, v2: bool, payload: seq<byte>)
    ensures First(bytes, v2) == (Payload(payload), 4 + |payload|) <==>
      |payload| <= 65516 && Declares(bytes, 4 + |payload|) && 4 + |payload| <= |bytes|
        && bytes[4..4 + |payload|] == payload
    ensures First(bytes, v2).0 == Flush <==> Declares(bytes, 0)
    ensures First(bytes, v2).0 == Delimiter <==> v2 && Declares(bytes, 1)
    ensures First(bytes, v2).0 == ResponseEnd <==> v2 && Declares(bytes, 2)
    ensures First(bytes, v2).0 == End <==> bytes == []
    ensures First(bytes, v2).0 == Flush || First(bytes, v2).0 == Delimiter || First(bytes, v2).0 == ResponseEnd ==>
      First(bytes, v2).1 == 4
    ensures First(bytes, v2).0 == End || First(bytes, v2).0 == Malformed ==> First(bytes, v2).1 == 0
  {
    hide DeclaredLength;
    if |bytes| >= 4 {
      var text := bytes[..4];
      forall n: nat
        ensures DeclaredLength(text) == Some(n) <==> Declares(bytes, n)
      {
        DeclaredIff(text, n);
      }
    }
  }

  /** Sections end with a flush. */
  lemma FlushIsRead(rest: seq<byte>, v2: bool)
    ensures First(HexLength(0) + rest, v2) == (Flush, 4)
  {
    LengthIsRead(0);
    assert (HexLength(0) + rest)[..LENGTH_BYTES] == HexLength(0);
  }

  /** Reads a body packet by packet. What it holds and what the body still has is always
      what has not been read yet. */
  class PktLineReader {
    var chunks: seq<seq<byte>>
    var buffer: seq<byte>
    var exhausted: bool
    var handedOver: bool

    ghost function Remaining(): seq<byte>
      reads this
    {
      buffer + Flatten(chunks)
    }

    ghost predicate Valid()
      reads this
    {
      exhausted ==> chunks == []
    }

    constructor (body: seq<seq<byte>>)
      ensures Valid() && Remaining() == Flatten(body) && !handedOver
    {
      chunks, buffer, exhausted, handedOver := body, [], false, false;
    }

    method Pull() returns (more: bool)
      requires Valid()
      modifies this`chunks, this`buffer, this`exhausted
      ensures Valid() && Remaining() == old(Remaining())
      ensures more <==> old(chunks) != []
      ensures more ==> |chunks| < |old(chunks)|
      ensures !more ==> buffer == old(buffer) && chunks == []
    {
      if exhausted {
        return false;
      }
      if chunks == [] {
        exhausted := true;
        return false;
      }
      buffer, chunks := buffer + chunks[0], chunks[1..];
      more := true;
    }

    method Fill(count: nat) returns (filled: bool)
      requires Valid()
      modifies this`chunks, this`buffer, this`exhausted
      ensures Valid() && Remaining() == old(Remaining())
      ensures filled <==> |Remaining()| >= count
      ensures filled ==> |buffer| >= count
      ensures !filled ==> buffer == Remaining()
    {
      while |buffer| < count
        invariant Valid() && Remaining() == old(Remaining())
        decreases |chunks|
      {
        var more := Pull();
        if !more {
          return false;
        }
      }
      filled := true;
    }

    method Advance(count: nat)
      requires Valid() && count <= |buffer|
      modifies this`buffer
      ensures Valid() && Remaining() == old(Remaining())[count..]
    {
      buffer := buffer[count..];
    }

    /** The next packet. A malformed one is left where it is. */
    method NextPacket(v2: bool) returns (packet: Packet)
      requires Valid() && !handedOver
      modifies this`chunks, this`buffer, this`exhausted
      ensures Valid()
      ensures var (p, count) := First(old(Remaining()), v2); packet == p && Remaining() == old(Remaining())[count..]
    {
      hide DeclaredLength, Flatten;
      ghost var all := Remaining();
      var enough := Fill(LENGTH_BYTES);
      if !enough {
        return if |buffer| > 0 then Malformed else End;
      }
      assert all[..LENGTH_BYTES] == buffer[..LENGTH_BYTES];
      var length := DeclaredLength(buffer[..LENGTH_BYTES]);
      if length.None? {
        return Malformed;
      }
      if length.value == 0 {
        Advance(LENGTH_BYTES);
        return Flush;
      }
      if v2 && length.value == 1 {
        Advance(LENGTH_BYTES);
        return Delimiter;
      }
      if v2 && length.value == 2 {
        Advance(LENGTH_BYTES);
        return ResponseEnd;
      }
      if length.value < LENGTH_BYTES || length.value > MAX_BYTES {
        return Malformed;
      }
      enough := Fill(length.value);
      if !enough {
        return Malformed;
      }
      var payload := buffer[LENGTH_BYTES..length.value];
      assert all[LENGTH_BYTES..length.value] == payload;
      Advance(length.value);
      packet := Payload(payload);
    }

    /** A v0 or v1 stream has no control packets but the flush. */
    method Next() returns (packet: Packet)
      requires Valid()
      modifies this`chunks, this`buffer, this`exhausted
      ensures Valid()
      ensures if old(handedOver) then packet == Malformed && Remaining() == old(Remaining())
              else
                var (p, count) := First(old(Remaining()), false);
                packet == p && Remaining() == old(Remaining())[count..]
    {
      if handedOver {
        return Malformed;
      }
      packet := NextPacket(false);
    }

    /** Hands over exactly what was not read: what was pulled too far first, then the body. */
    method Rest() returns (body: seq<seq<byte>>)
      requires Valid()
      modifies this
      ensures Flatten(body) == old(Remaining()) && handedOver && Valid() && Remaining() == []
    {
      handedOver := true;
      body := (if |buffer| > 0 then [buffer] else []) + chunks;
      FlattenConcat(if |buffer| > 0 then [buffer] else [], chunks);
      assert |buffer| > 0 ==> Flatten([buffer]) == buffer + Flatten([]);
      buffer, chunks := [], [];
    }
  }
}
