/** Pack bytes written into wire-sized frames and hashed on the way. */
module PackFrames {
  import opened Bits
  import opened Options
  import opened Graph
  import opened PktLine

  /** A frame is one side-band packet, or as many bare bytes. */
  const FRAME_BYTES := 65520
  const DATA_BAND: byte := 1

  // ---- Entry headers ------------------------------------------------------------------------

  /** The rest of a size, seven bits at a time, least significant first. */
  function SizeRest(remaining: nat): seq<byte> {
    if remaining == 0 then []
    else [(if remaining / 128 > 0 then 128 else 0) + remaining % 128] + SizeRest(remaining / 128)
  }

  /** The type in the first byte's high nibble, then the size. */
  function EntryHeader(kind: nat, size: nat): seq<byte>
    requires kind < 8
  {
    [(if size / 16 > 0 then 128 else 0) + 16 * kind + size % 16] + SizeRest(size / 16)
  }

  // ---- Frames -------------------------------------------------------------------------------

  function Frame(banded: bool, payload: seq<byte>): seq<byte>
    requires banded ==> |payload| < MAX_PAYLOAD_BYTES
  {
    if banded then Line([DATA_BAND] + payload) else payload
  }

  /** A payload a frame can carry: not empty, and no more than fits. */
  predicate Fits(banded: bool, payload: seq<byte>) {
    0 < |payload| <= if banded then 65515 else 65520
  }

  predicate AllFit(banded: bool, payloads: seq<seq<byte>>) {
    forall i :: 0 <= i < |payloads| ==> Fits(banded, payloads[i])
  }

  /** The first `n` frames are as large as frames can be. */
  predicate AreFull(banded: bool, payloads: seq<seq<byte>>, n: int) {
    forall i :: 0 <= i < n && i < |payloads| ==> |payloads[i]| == if banded then 65515 else 65520
  }

  lemma FullAppend(banded: bool, payloads: seq<seq<byte>>, p: seq<byte>)
    requires AreFull(banded, payloads, |payloads|)
    ensures AreFull(banded, payloads + [p], |payloads|)
    ensures |p| == (if banded then 65515 else 65520) ==> AreFull(banded, payloads + [p], |payloads| + 1)
  {
  }

  function Prefix(banded: bool): nat {
    if banded then LENGTH_BYTES + 1 else 0
  }

  function Frames(banded: bool, payloads: seq<seq<byte>>): seq<seq<byte>>
    requires AllFit(banded, payloads)
  {
    if payloads == [] then [] else [Frame(banded, payloads[0])] + Frames(banded, payloads[1..])
  }

  lemma {:induction false} FramesAppend(banded: bool, payloads: seq<seq<byte>>, p: seq<byte>)
    requires AllFit(banded, payloads) && Fits(banded, p)
    ensures AllFit(banded, payloads + [p])
    ensures Frames(banded, payloads + [p]) == Frames(banded, payloads) + [Frame(banded, p)]
    ensures |Frames(banded, payloads)| == |payloads|
  {
    if payloads == [] {
      assert [p][1..] == [];
      assert [] + [p] == [p];
    } else {
      FramesAppend(banded, payloads[1..], p);
      assert (payloads + [p])[1..] == payloads[1..] + [p];
    }
  }

  lemma FrameIsBounded(banded: bool, p: seq<byte>)
    requires Fits(banded, p)
    ensures 0 < |Frame(banded, p)| <= 65520
  {
  }

  /** What a client reads off the data band, which is the first, up to the flush, and what follows it. */
  function Demultiplex(bytes: seq<byte>): Option<(seq<byte>, seq<byte>)>
    decreases |bytes|
  {
    var (packet, count) := First(bytes, false);
    match packet
    case Payload(p) =>
      if p == [] || p[0] != 1 || count == 0 then None
      else
        var rest := Demultiplex(bytes[count..]);
        if rest.Some? then Some((p[1..] + rest.value.0, rest.value.1)) else None
    case Flush => Some(([], bytes[count..]))
    case _ => None
  }

  /** The frames undo cleanly: read back packet by packet they are exactly the bytes that
      were framed. */
  lemma {:induction false} FramesAreRead(payloads: seq<seq<byte>>, rest: seq<byte>)
    requires AllFit(true, payloads)
    ensures Demultiplex(Flatten(Frames(true, payloads)) + (HexLength(0) + rest)) == Some((Flatten(payloads), rest))
  {
    hide First, HexLength;
    var tail := HexLength(0) + rest;
    if payloads == [] {
      FlushIsRead(rest, false);
      assert Flatten([]) + tail == tail;
      FlushLength();
      assert tail[4..] == rest;
    } else {
      var p, more := payloads[0], payloads[1..];
      var line := Frame(true, p);
      var left := Flatten(Frames(true, more)) + tail;
      assert Flatten(Frames(true, payloads)) + tail == line + left;
      LineIsRead([DATA_BAND] + p, left, false);
      assert (line + left)[|line|..] == left;
      assert ([DATA_BAND] + p)[1..] == p;
      FramesAreRead(more, rest);
    }
  }

  lemma FlushLength()
    ensures |HexLength(0)| == 4
  {
  }

  /** Bare frames are the bytes themselves. */
  lemma {:induction false} BareFrames(payloads: seq<seq<byte>>)
    requires AllFit(false, payloads)
    ensures Flatten(Frames(false, payloads)) == Flatten(payloads)
  {
    if payloads != [] {
      BareFrames(payloads[1..]);
    }
  }

  // ---- The writer -----------------------------------------------------------------------------

  class PackFrameWriter {
    const banded: bool
    /** SHA-1, of which only the length of its result matters here. */
    const sha1: seq<byte> -> seq<byte>
    var ready: seq<seq<byte>>
    var frame: array<byte>
    var filled: nat
    var hashed: nat
    var digested: bool
    var hasher: seq<byte>
    /** The payloads of all frames completed so far, and how many were taken. */
    ghost var payloads: seq<seq<byte>>
    ghost var taken: nat

    ghost function Pending(): seq<byte>
      reads this, frame
    {
      if Prefix(banded) + filled <= frame.Length then frame[Prefix(banded)..Prefix(banded) + filled] else []
    }

    /** Every payload byte written so far. */
    ghost function Written(): seq<byte>
      reads this, frame
    {
      Flatten(payloads) + Pending()
    }

    /** The frames still to be taken are those of the payloads. */
    ghost predicate Queued()
      reads this`payloads, this`taken, this`ready
    {
      && AllFit(banded, payloads)
      && taken <= |Frames(banded, payloads)|
      && ready == Frames(banded, payloads)[taken..]
    }

    /** Everything but that the frame has room left. */
    ghost predicate Sound()
      reads this, frame
    {
      && Queued() && AreFull(banded, payloads, |payloads|)
      && frame.Length == FRAME_BYTES
      && filled <= FRAME_BYTES - Prefix(banded)
      && hashed <= filled
      && (banded ==> frame[LENGTH_BYTES] == DATA_BAND)
      && (digested || hasher + frame[Prefix(banded) + hashed..Prefix(banded) + filled] == Written())
      && (forall x :: |sha1(x)| == OID_BYTES)
    }

    ghost predicate Valid()
      reads this, frame
    {
      Sound() && filled < FRAME_BYTES - Prefix(banded)
    }

    constructor (banded: bool, sha1: seq<byte> -> seq<byte>)
      requires forall x :: |sha1(x)| == OID_BYTES
      ensures Valid() && fresh(frame) && Written() == [] && !digested
      ensures this.banded == banded && this.sha1 == sha1 && payloads == [] && taken == 0
    {
      this.banded, this.sha1 := banded, sha1;
      ready, filled, hashed, digested, hasher := [], 0, 0, false, [];
      payloads, taken := [], 0;
      frame := new byte[FRAME_BYTES](i => if banded && i == LENGTH_BYTES then DATA_BAND else 0);
    }

    /** The current frame as it goes on the wire, its length written once it is known. */
    method Framed() returns (bytes: seq<byte>)
      requires frame.Length == FRAME_BYTES && Prefix(banded) + filled <= FRAME_BYTES && filled > 0
      requires banded ==> frame[LENGTH_BYTES] == DATA_BAND
      modifies frame
      ensures bytes == Frame(banded, old(Pending())) && Pending() == old(Pending())
      ensures banded ==> frame[LENGTH_BYTES] == DATA_BAND
    {
      hide HexDigit;
      ghost var payload := Pending();
      var length := Prefix(banded) + filled;
      if banded {
        var hex := HexLength(length);
        forall i | 0 <= i < LENGTH_BYTES {
          frame[i] := hex[i];
        }
        assert frame[..length] == hex + ([DATA_BAND] + payload);
      }
      assert Pending() == payload;
      bytes := frame[..length];
    }

    /** The checksum covers every payload byte before itself, and never itself. */
    method HashThrough(end: nat)
      requires frame.Length == FRAME_BYTES && Prefix(banded) + end <= FRAME_BYTES && hashed <= end
      modifies this`hasher, this`hashed
      ensures old(digested) ==> hasher == old(hasher) && hashed == old(hashed)
      ensures !old(digested) ==>
        hashed == end && hasher == old(hasher) + frame[Prefix(banded) + old(hashed)..Prefix(banded) + end]
    {
      if digested || end == hashed {
        assert frame[Prefix(banded) + hashed..Prefix(banded) + hashed] == [];
        return;
      }
      hasher := hasher + frame[Prefix(banded) + hashed..Prefix(banded) + end];
      hashed := end;
    }

    method Grow(count: nat)
      requires Sound() && Prefix(banded) + filled + count <= FRAME_BYTES
      modifies this`filled
      ensures filled == old(filled) + count && Sound()
      ensures Written() == old(Written()) + frame[Prefix(banded) + old(filled)..Prefix(banded) + filled]
    {
      hide Queued, Flatten, AreFull;
      ghost var from := Prefix(banded);
      SlicesJoin(frame[..], from, from + filled, from + filled + count);
      SlicesJoin(frame[..], from + hashed, from + filled, from + filled + count);
      Regroup(Flatten(payloads), Pending(), frame[from + filled..from + filled + count]);
      Regroup(hasher, frame[from + hashed..from + filled], frame[from + filled..from + filled + count]);
      filled := filled + count;
    }

    /** What is pending becomes a frame. */
    method LastFrame()
      requires Sound() && filled > 0
      modifies this`ready, this`payloads, frame
      ensures Queued() && Flatten(payloads) == old(Written()) && AreFull(banded, payloads, |payloads| - 1)
      ensures old(filled) == FRAME_BYTES - Prefix(banded) ==> AreFull(banded, payloads, |payloads|)
    {
      hide Frames, Fits, AllFit, AreFull;
      ghost var all := Pending();
      var bytes := Framed();
      FullFits(banded, all);
      FramesAppend(banded, payloads, all);
      FlattenAppend(payloads, all);
      FullAppend(banded, payloads, all);
      assert Frames(banded, payloads + [all])[taken..] == Frames(banded, payloads)[taken..] + [bytes];
      ready, payloads := ready + [bytes], payloads + [all];
    }

    /** A full frame is hashed and made ready, and the next one begun. */
    method CompleteFrame()
      requires Sound() && filled == FRAME_BYTES - Prefix(banded)
      modifies this, frame
      ensures Valid() && fresh(frame) && Written() == old(Written())
      ensures digested == old(digested) && taken == old(taken) && (digested ==> hasher == old(hasher))
    {
      hide Frames, AllFit, Flatten, AreFull;
      HashThrough(filled);
      assert frame[Prefix(banded) + filled..Prefix(banded) + filled] == [];
      LastFrame();
      frame := new byte[FRAME_BYTES](i => if banded && i == LENGTH_BYTES then DATA_BAND else 0);
      filled, hashed := 0, 0;
      assert Pending() == [] && frame[Prefix(banded)..Prefix(banded)] == [];
    }

    /** Counts bytes just put into the frame. */
    method AdvanceBy(count: nat)
      requires Sound() && Prefix(banded) + filled + count <= FRAME_BYTES
      modifies this, frame
      ensures Valid() && (frame == old(frame) || fresh(frame))
      ensures Written() == old(Written() + frame[Prefix(banded) + filled..Prefix(banded) + filled + count])
      ensures digested == old(digested) && taken == old(taken) && (digested ==> hasher == old(hasher))
    {
      hide Sound;
      Grow(count);
      if filled == FRAME_BYTES - Prefix(banded) {
        CompleteFrame();
      }
    }

    /** Puts bytes past the filled part of the frame; nothing else changes. */
    method Put(bytes: seq<byte>)
      requires Sound() && Prefix(banded) + filled + |bytes| <= FRAME_BYTES
      modifies frame
      ensures Sound() && Written() == old(Written())
      ensures frame[Prefix(banded) + filled..Prefix(banded) + filled + |bytes|] == bytes
    {
      hide Queued, Flatten, AreFull;
      ghost var start := Prefix(banded) + filled;
      ghost var before := frame[..start];
      forall i | 0 <= i < |bytes| {
        frame[Prefix(banded) + filled + i] := bytes[i];
      }
      assert frame[..start] == before;
      SliceIs(frame[..], start, bytes);
      SliceOfPrefix(frame[..], old(frame[..]), start, Prefix(banded));
      SliceOfPrefix(frame[..], old(frame[..]), start, Prefix(banded) + hashed);
      PrefixAt(frame[..], old(frame[..]), start, LENGTH_BYTES);
    }

    /** Copies what fits into the current frame and reports how far into `bytes` it got. */
    method Write(bytes: seq<byte>, from: nat) returns (at: nat)
      requires Valid() && from <= |bytes|
      modifies this, frame
      ensures Valid() && (frame == old(frame) || fresh(frame))
      ensures from <= at <= |bytes| && (from < |bytes| ==> from < at)
      ensures Written() == old(Written()) + bytes[from..at]
      ensures digested == old(digested) && taken == old(taken) && (digested ==> hasher == old(hasher))
    {
      hide Queued, Written;
      var room := FRAME_BYTES - Prefix(banded) - filled;
      var count := if room < |bytes| - from then room else |bytes| - from;
      Put(bytes[from..from + count]);
      AdvanceBy(count);
      at := from + count;
    }

    /** All of `bytes`, over as many frames as it takes. */
    method WriteAll(bytes: seq<byte>)
      requires Valid()
      modifies this, frame
      ensures Valid() && (frame == old(frame) || fresh(frame))
      ensures Written() == old(Written()) + bytes
      ensures digested == old(digested) && taken == old(taken) && (digested ==> hasher == old(hasher))
    {
      hide Valid;
      var at := 0;
      while at < |bytes|
        invariant at <= |bytes| && Valid() && (frame == old(frame) || fresh(frame))
        invariant Written() == old(Written()) + bytes[..at]
        invariant digested == old(digested) && taken == old(taken) && (digested ==> hasher == old(hasher))
      {
        ghost var before := at;
        at := Write(bytes, at);
        assert bytes[..before] + bytes[before..at] == bytes[..at];
      }
      assert bytes[..at] == bytes;
    }

    method WriteByte(b: byte)
      requires Valid()
      modifies this, frame
      ensures Valid() && (frame == old(frame) || fresh(frame))
      ensures Written() == old(Written()) + [b]
      ensures digested == old(digested) && taken == old(taken)
    {
      hide Queued, Written;
      Put([b]);
      AdvanceBy(1);
    }

    method WriteEntryHeader(kind: nat, size: nat)
      requires Valid() && kind < 8
      modifies this, frame
      ensures Valid() && (frame == old(frame) || fresh(frame))
      ensures Written() == old(Written()) + EntryHeader(kind, size)
      ensures digested == old(digested) && taken == old(taken)
    {
      hide Queued, Written;
      var remaining: nat := size / 16;
      ghost var sent: seq<byte> := [(if remaining > 0 then 128 else 0) + 16 * kind + size % 16];
      WriteByte((if remaining > 0 then 128 else 0) + 16 * kind + size % 16);
      while remaining > 0
        invariant Valid() && (frame == old(frame) || fresh(frame))
        invariant Written() == old(Written()) + sent && sent + SizeRest(remaining) == EntryHeader(kind, size)
        invariant digested == old(digested) && taken == old(taken)
      {
        var next := remaining / 128;
        var b: byte := (if next > 0 then 128 else 0) + remaining % 128;
        assert SizeRest(remaining) == [b] + SizeRest(next);
        WriteByte(b);
        sent := sent + [b];
        remaining := next;
      }
      assert sent + [] == sent;
    }

    /** The twenty bytes of a base's name, straight into the frame when they fit. */
    method WriteObjectId(oid: seq<byte>)
      requires Valid() && |oid| == OID_BYTES
      modifies this, frame
      ensures Valid() && (frame == old(frame) || fresh(frame))
      ensures Written() == old(Written()) + oid
      ensures digested == old(digested) && taken == old(taken)
    {
      hide Queued, Written;
      if FRAME_BYTES - Prefix(banded) - filled >= OID_BYTES {
        Put(oid);
        AdvanceBy(OID_BYTES);
        return;
      }
      WriteAll(oid);
    }

    /** The oldest frame not taken yet. */
    method TakeFrame() returns (taken': Option<seq<byte>>)
      requires Queued()
      modifies this`ready, this`taken
      ensures Queued()
      ensures if old(taken) < |Frames(banded, payloads)|
              then taken'.Some? && taken'.value == Frames(banded, payloads)[old(taken)] && taken == old(taken) + 1
              else taken'.None? && taken == old(taken)
    {
      hide Frames;
      if ready == [] {
        return None;
      }
      taken' := Some(ready[0]);
      ready, taken := ready[1..], taken + 1;
    }

    /** Appends the checksum and completes the frame that holds it: the payloads of all frames
        are then exactly what was written, followed by its digest, in as few frames as can be. */
    method Finish()
      requires Valid() && !digested
      modifies this, frame
      ensures Queued() && taken == old(taken)
      ensures Flatten(payloads) == old(Written()) + sha1(old(Written()))
      ensures AreFull(banded, payloads, |payloads| - 1)
    {
      hide Flatten, Frames, AllFit, Fits;
      ghost var all := Written();
      HashAll();
      digested := true;
      WriteAll(sha1(hasher));
      if filled > 0 {
        LastFrame();
      } else {
        NothingPending();
      }
    }

    method HashAll()
      requires Valid() && !digested
      modifies this`hasher, this`hashed
      ensures Valid() && hasher == Written() == old(Written())
    {
      hide Frames, AllFit, Flatten;
      HashThrough(filled);
      assert frame[Prefix(banded) + hashed..Prefix(banded) + filled] == [];
      assert hasher + [] == hasher;
    }

    lemma NothingPending()
      requires Valid() && filled == 0
      ensures Queued() && Flatten(payloads) == Written()
    {
    }
  }

  lemma SliceIs(s: seq<byte>, from: nat, bytes: seq<byte>)
    requires from + |bytes| <= |s| && forall i :: 0 <= i < |bytes| ==> s[from + i] == bytes[i]
    ensures s[from..from + |bytes|] == bytes
  {
  }

  lemma SliceOfPrefix(s: seq<byte>, t: seq<byte>, n: nat, from: nat)
    requires from <= n <= |s| && n <= |t| && s[..n] == t[..n]
    ensures s[from..n] == t[from..n]
  {
    assert s[from..n] == s[..n][from..] && t[from..n] == t[..n][from..];
  }

  lemma PrefixAt(s: seq<byte>, t: seq<byte>, n: nat, i: nat)
    requires n <= |s| && n <= |t| && s[..n] == t[..n]
    ensures i < n ==> s[i] == t[i]
  {
    if i < n {
      assert s[i] == s[..n][i] && t[i] == t[..n][i];
    }
  }

  lemma FullFits(banded: bool, p: seq<byte>)
    requires 0 < |p| <= FRAME_BYTES - Prefix(banded)
    ensures Fits(banded, p)
  {
  }
}
