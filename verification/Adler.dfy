/** The zlib checksum with its modulus put off (section 8.2 of RFC 1950). */
module Adler32Sum {
  import opened Bits
  import opened Inflate

  const RUN := 5552

  // ---- What the checksum is ---------------------------------------------------------

  function Total(bytes: seq<byte>): nat {
    if bytes == [] then 0 else bytes[0] + Total(bytes[1..])
  }

  /** The sum of the totals after each byte: the first byte is in all of them. */
  function Weighted(bytes: seq<byte>): nat {
    if bytes == [] then 0 else |bytes| * bytes[0] + Weighted(bytes[1..])
  }

  lemma {:induction false} LastByte(bytes: seq<byte>)
    requires bytes != []
    ensures var n := |bytes| - 1; Total(bytes) == Total(bytes[..n]) + bytes[n]
    ensures Weighted(bytes) == Weighted(bytes[..|bytes| - 1]) + Total(bytes)
  {
    var n := |bytes| - 1;
    if n > 0 {
      LastByte(bytes[1..]);
      assert bytes[..n][1..] == bytes[1..][..n - 1];
      assert (n + 1) * bytes[0] == n * bytes[0] + bytes[0];
    }
  }

  /** The two sums, each reduced once at the end. */
  lemma {:induction false} AdlerIsSums(bytes: seq<byte>)
    ensures AdlerLow(bytes) == (1 + Total(bytes)) % 65521
    ensures AdlerHigh(bytes) == (|bytes| + Weighted(bytes)) % 65521
    decreases |bytes|
  {
    if bytes != [] {
      var n := |bytes| - 1;
      AdlerIsSums(bytes[..n]);
      LastByte(bytes);
      ModAdd(1 + Total(bytes[..n]), bytes[n]);
      ModAdd(n + Weighted(bytes[..n]), AdlerLow(bytes));
      ModAdd(1 + Total(bytes), n + Weighted(bytes[..n]));
    }
  }

  // ---- How it is computed -------------------------------------------------------------

  /** The largest `high` can be after `k` unreduced bytes. */
  function HighBound(k: nat): nat {
    if k == 0 then 65520 else HighBound(k - 1) + 65520 + 255 * k
  }

  lemma {:induction false} HighBoundClosed(k: nat)
    ensures 2 * HighBound(k) == 131040 + 131295 * k + 255 * (k * k)
  {
    if k > 0 {
      HighBoundClosed(k - 1);
      assert (k - 1) * (k - 1) == k * k - 2 * k + 1;
    }
  }

  lemma Product(a: nat, b: nat)
    ensures a * b >= 0
  {
  }

  lemma SquareBelow(k: nat)
    requires k <= RUN
    ensures k * k <= 5552 * k
  {
    Product(RUN - k, k);
    assert (RUN - k) * k == 5552 * k - k * k;
  }

  /** 5552 bytes are few enough that the sum stays below 32 bits. */
  lemma HighFits(k: nat)
    requires k <= RUN
    ensures HighBound(k) < 0x1_0000_0000
  {
    HighBoundClosed(k);
    SquareBelow(k);
  }

  lemma ModAdd(x: nat, y: nat)
    ensures (x + y) % ADLER_MODULUS == (x % ADLER_MODULUS + y) % ADLER_MODULUS
  {
  }

  /** `low` and `high`, unreduced for `k` bytes, stand for the checksum of `bytes[..i]`. */
  predicate Unreduced(bytes: seq<byte>, i: nat, k: nat, low: nat, high: nat)
    requires i <= |bytes|
  {
    && low % ADLER_MODULUS == AdlerLow(bytes[..i])
    && high % ADLER_MODULUS == AdlerHigh(bytes[..i])
    && low <= 65520 + 255 * k
    && high <= HighBound(k)
  }

  lemma AdlerStep(bytes: seq<byte>, i: nat, k: nat, low: nat, high: nat)
    requires i < |bytes| && Unreduced(bytes, i, k, low, high)
    ensures Unreduced(bytes, i + 1, k + 1, low + bytes[i], high + (low + bytes[i]))
  {
    var next := bytes[..i + 1];
    assert next[..|next| - 1] == bytes[..i];
    var sum := low + bytes[i];
    ModAdd(low, bytes[i]);
    assert AdlerLow(next) == sum % ADLER_MODULUS;
    ModAdd(high, sum);
    ModAdd(sum, high % ADLER_MODULUS);
  }

  /** The sums over one run, reduced once at its end. */
  method SumRun(bytes: seq<byte>, at: nat, end: nat, low0: nat, high0: nat) returns (low: nat, high: nat)
    requires at <= end <= |bytes| && end - at <= RUN
    requires low0 == AdlerLow(bytes[..at]) && high0 == AdlerHigh(bytes[..at])
    requires low0 < ADLER_MODULUS && high0 < ADLER_MODULUS
    ensures low == AdlerLow(bytes[..end]) && high == AdlerHigh(bytes[..end])
    ensures low < ADLER_MODULUS && high < ADLER_MODULUS
  {
    low, high := low0, high0;
    for i := at to end
      invariant Unreduced(bytes, i, i - at, low, high) && high < 0x1_0000_0000
    {
      AdlerStep(bytes, i, i - at, low, high);
      low := low + bytes[i];
      high := high + low;
      HighFits(i + 1 - at);
    }
    low := low % ADLER_MODULUS;
    high := high % ADLER_MODULUS;
  }

  /** Reducing once per run gives the checksum that reducing after every byte gives. */
  method Adler32(bytes: seq<byte>) returns (sum: nat)
    ensures sum == Adler(bytes)
  {
    var low, high, at := 1, 0, 0;
    assert bytes[..0] == [];
    while at < |bytes|
      invariant at <= |bytes|
      invariant low == AdlerLow(bytes[..at]) && high == AdlerHigh(bytes[..at])
      invariant low < ADLER_MODULUS && high < ADLER_MODULUS
    {
      var end := if at + RUN < |bytes| then at + RUN else |bytes|;
      low, high := SumRun(bytes, at, end, low, high);
      at := end;
    }
    assert bytes[..|bytes|] == bytes;
    sum := 65536 * high + low;
  }
}
