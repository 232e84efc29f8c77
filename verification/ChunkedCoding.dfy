/** The chunk encoder that wraps a streamed response body, and the round trip: what it
    writes is decoded to the same bytes by the response parser and by the request parser. */
module ChunkedCoding {
  import opened Text
  import opened Numerals

  function NeededDigits(n: nat): nat {
    if n == 0 then 0 else 1 + NeededDigits(n / 16)
  }

  function Pow16(d: nat): (r: nat)
    ensures r > 0
  {
    if d == 0 then 1 else 16 * Pow16(d - 1)
  }

  lemma {:induction false} DigitsSuffice(n: nat)
    ensures n < Pow16(NeededDigits(n))
    decreases n
  {
    if n > 0 { DigitsSuffice(n / 16); }
  }

  lemma {:induction false} DigitsBound(n: nat, d: nat)
    requires n < Pow16(d)
    ensures NeededDigits(n) <= d
    decreases d
  {
    if n > 0 { DigitsBound(n / 16, d - 1); }
  }

  lemma {:induction false} FewDigits(n: nat)
    ensures NeededDigits(n) <= n
    decreases n
  {
    if n > 0 { FewDigits(n / 16); }
  }

  /** The buffer sizes the encoder is written for: room for one byte, and a width that is
      a single digit of the format string. */
  predicate Usable(n: nat) { 6 <= n < 0x10_0000_0000 }

  lemma UsableSize(n: nat)
    requires Usable(n)
    ensures 1 <= NeededDigits(n) <= 9 && NeededDigits(n) + 4 < n
  {
    assert Pow16(9) == 0x10_0000_0000 by {
      assert Pow16(4) == 0x1_0000;
      assert Pow16(8) == 0x1_0000 * 0x1_0000;
    }
    DigitsBound(n, 9);
    FewDigits(n / 16);
  }

  /** `%0<width>lx`: the lowest `width` hexadecimal digits, zero padded. */
  function PaddedHex(width: nat, n: nat): (s: string)
    ensures |s| == width && forall i :: 0 <= i < |s| ==> IsHex(s[i])
  {
    if width == 0 then "" else PaddedHex(width - 1, n / 16) + [HexChar(n % 16)]
  }

  lemma {:induction false} PaddedHexReads(width: nat, n: nat)
    requires n < Pow16(width)
    ensures HexValue(PaddedHex(width, n)) == n
    decreases width
  {
    if width > 0 {
      PaddedHexReads(width - 1, n / 16);
      var s := PaddedHex(width, n);
      assert s[..width - 1] == PaddedHex(width - 1, n / 16);
    }
  }

  const LAST_CHUNK := "0" + CRLF + CRLF

  /** A chunk with its size in `width` digits. */
  function Chunk(width: nat, data: string): string {
    PaddedHex(width, |data|) + CRLF + data + CRLF
  }

  /** What one call with a buffer of `n` bytes writes for the supplied `data`. */
  function Encoded(n: nat, data: string): string {
    if data == "" then LAST_CHUNK else Chunk(NeededDigits(n), data)
  }

  /** `b` with `s` written over it at `at`. */
  function Patched(b: string, at: nat, s: string): string
    requires at + |s| <= |b|
  {
    b[..at] + s + b[at + |s|..]
  }

  method Put(buffer: array<char>, at: nat, s: string)
    requires at + |s| <= buffer.Length
    modifies buffer
    ensures buffer[..] == Patched(old(buffer[..]), at, s)
  {
    for i := 0 to |s|
      invariant forall k :: at <= k < at + i ==> buffer[k] == s[k - at]
      invariant forall k :: 0 <= k < buffer.Length && !(at <= k < at + i) ==> buffer[k] == old(buffer[k])
    {
      buffer[at + i] := s[i];
    }
  }

  /** Data, line end and size, written in that order, make a chunk. */
  lemma Assembled(b: string, size: string, data: string)
    requires |size| + 2 + |data| + 2 <= |b|
    ensures var h := |size| + 2;
            var b' := Patched(Patched(Patched(b, h, data), h + |data|, CRLF), 0, size + CRLF);
            b'[..h + |data| + 2] == size + CRLF + data + CRLF
  {
    var h := |size| + 2;
    var b1 := Patched(b, h, data);
    var b2 := Patched(b1, h + |data|, CRLF);
    var b3 := Patched(b2, 0, size + CRLF);
    assert b1[h..h + |data|] == data;
    assert b2[h..h + |data|] == b1[h..h + |data|];
    assert b2[h + |data|..h + |data| + 2] == CRLF;
    assert b2[h..h + |data| + 2] == data + CRLF;
    assert b3[h..h + |data| + 2] == b2[h..h + |data| + 2];
    assert b3[..h] == size + CRLF;
    assert b3[..h + |data| + 2] == b3[..h] + b3[h..h + |data| + 2];
  }

  /** The state kept between calls: whether the terminal chunk has been written. */
  class ChunkingParams {
    var finished: bool

    constructor ()
      ensures !finished
    {
      finished := false;
    }

    /** `supply` is what the data callback puts into the room it is offered, nothing
        when it has no more.  The call never writes past the buffer. */
    method ChunkingCallback(buffer: array<char>, supply: string) returns (written: nat)
      requires Usable(buffer.Length)
      requires |supply| + NeededDigits(buffer.Length) + 4 <= buffer.Length
      modifies this, buffer
      ensures written <= buffer.Length
      ensures buffer[..written] == if old(finished) then "" else Encoded(buffer.Length, supply)
      ensures finished == (old(finished) || supply == "")
    {
      if finished {
        return 0;
      }
      UsableSize(buffer.Length);
      var header := NeededDigits(buffer.Length) + 2;
      Put(buffer, header, supply);
      if |supply| == 0 {
        finished := true;
        Put(buffer, 0, LAST_CHUNK);
        return 5;
      }
      Put(buffer, header + |supply|, CRLF);
      Put(buffer, 0, PaddedHex(header - 2, |supply|) + CRLF);
      Assembled(old(buffer[..]), PaddedHex(header - 2, |supply|), supply);
      hide Patched, PaddedHex;
      written := header + |supply| + 2;
      assert buffer[..written] == buffer[..][..written];
    }
  }
}
