/** The bytes of a pack as they are pulled: read ahead, handed back, and hashed but for
    the last twenty. */
module PackStream {
  import opened Bits
  import opened Options

  const TRAILER_BYTES := 20

  class Stream {
    const sha1: seq<byte> -> seq<byte>
    var chunks: seq<seq<byte>>
    var buffer: seq<byte>
    var held: seq<byte>
    var exhausted: bool
    var position: nat
    var hasher: seq<byte>
    /** The whole body, and how much of it was pulled. */
    ghost const whole: seq<byte>
    ghost var pulled: seq<byte>

    /** What is buffered is what was pulled past the position; what was hashed is what was
        pulled but for its last twenty bytes. */
    ghost predicate Valid()
      reads this
    {
      && whole == pulled + Flatten(chunks)
      && position <= |pulled| && buffer == pulled[position..]
      && pulled == hasher + held && |held| == Least(TRAILER_BYTES, |pulled|)
      && (exhausted ==> chunks == [])
    }

    constructor (body: seq<seq<byte>>, sha1: seq<byte> -> seq<byte>)
      ensures Valid() && position == 0 && whole == Flatten(body) && this.sha1 == sha1
    {
      this.sha1 := sha1;
      chunks, buffer, held, exhausted, position, hasher := body, [], [], false, 0, [];
      whole, pulled := Flatten(body), [];
    }

    /** Hashes everything but the last twenty bytes seen so far. */
    method Hold(chunk: seq<byte>)
      requires pulled == hasher + held && |held| == Least(TRAILER_BYTES, |pulled|)
      modifies this`hasher, this`held
      ensures pulled + chunk == hasher + held && |held| == Least(TRAILER_BYTES, |pulled| + |chunk|)
    {
      if |chunk| >= TRAILER_BYTES {
        hasher := hasher + held;
        hasher := hasher + chunk[..|chunk| - TRAILER_BYTES];
        held := chunk[|chunk| - TRAILER_BYTES..];
        return;
      }
      var combined := held + chunk;
      var keep := Least(TRAILER_BYTES, |combined|);
      hasher := hasher + combined[..|combined| - keep];
      held := combined[|combined| - keep..];
    }

    method Pull() returns (more: bool)
      requires Valid()
      modifies this`chunks, this`buffer, this`held, this`exhausted, this`hasher, this`pulled
      ensures Valid() && old(pulled) <= pulled
      ensures more ==> |chunks| < |old(chunks)|
      ensures !more ==> chunks == [] && buffer == old(buffer)
    {
      if exhausted {
        return false;
      }
      if chunks == [] {
        exhausted := true;
        return false;
      }
      var value := chunks[0];
      Hold(value);
      assert whole == pulled + value + Flatten(chunks[1..]);
      assert (pulled + value)[position..] == pulled[position..] + value;
      buffer, chunks, pulled := buffer + value, chunks[1..], pulled + value;
      more := true;
    }

    /** The next `count` bytes, or none when the pack is too short. */
    method Take(count: nat) returns (taken: Option<seq<byte>>)
      requires Valid()
      modifies this
      ensures Valid()
      ensures if old(position) + count <= |whole|
              then taken == Some(whole[old(position)..old(position) + count]) && position == old(position) + count
              else taken.None? && position == old(position)
    {
      while |buffer| < count
        invariant Valid() && position == old(position)
        decreases |chunks|
      {
        var more := Pull();
        if !more {
          return None;
        }
      }
      taken := Some(buffer[..count]);
      assert whole[position..position + count] == buffer[..count];
      buffer, position := buffer[count..], position + count;
    }

    method Byte() returns (b: Option<byte>)
      requires Valid()
      modifies this
      ensures Valid()
      ensures if old(position) < |whole| then b == Some(whole[old(position)]) && position == old(position) + 1
              else b.None? && position == old(position)
    {
      var taken := Take(1);
      if taken.None? {
        return None;
      }
      b := Some(taken.value[0]);
    }

    /** Whatever is buffered, so that the inflater sets the pace. */
    method TakeBuffered() returns (taken: Option<seq<byte>>)
      requires Valid()
      modifies this
      ensures Valid()
      ensures if old(position) < |whole|
              then
                && taken.Some? && old(position) < position <= |whole|
                && taken.value == whole[old(position)..position]
              else taken.None? && position == old(position)
    {
      while |buffer| == 0
        invariant Valid() && position == old(position)
        decreases |chunks|
      {
        var more := Pull();
        if !more {
          return None;
        }
      }
      taken := Some(buffer);
      assert whole[position..position + |buffer|] == buffer;
      position := position + |buffer|;
      buffer := [];
    }

    /** Hands back the tail that was read past the end of something. */
    method Unread(bytes: seq<byte>)
      requires Valid() && |bytes| <= position && bytes == whole[position - |bytes|..position]
      modifies this`buffer, this`position
      ensures Valid() && position == old(position) - |bytes|
    {
      if |bytes| == 0 {
        return;
      }
      var at := position - |bytes|;
      assert pulled[at..position] == bytes;
      assert pulled[at..] == pulled[at..position] + pulled[position..];
      buffer, position := bytes + buffer, at;
    }

    /** Whether the body is over; then everything but the last twenty bytes was hashed. */
    method AtEnd() returns (over: bool)
      requires Valid()
      modifies this
      ensures Valid() && position == old(position)
      ensures over <==> position == |whole|
      ensures over ==> pulled == whole
    {
      var more := true;
      while |buffer| == 0 && more
        invariant Valid() && position == old(position)
        invariant !more ==> chunks == []
        decreases more, |chunks|
      {
        more := Pull();
      }
      over := |buffer| == 0;
    }

    /** The checksum the trailer should carry, once the stream is over. */
    method Digest() returns (digest: seq<byte>)
      requires Valid()
      ensures pulled == whole ==> digest == sha1(whole[..|whole| - Least(TRAILER_BYTES, |whole|)])
    {
      digest := sha1(hasher);
      assert pulled[..|pulled| - |held|] == hasher;
    }
  }
}
