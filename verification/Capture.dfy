/** The bounded capture of a process's output. */
module Capture {
  import opened Basics
  import opened Strings
  import opened Utf8
  import opened Contract

  function Concat(chunks: seq<Bytes>): Bytes {
    if chunks == [] then [] else Concat(chunks[..|chunks| - 1]) + chunks[|chunks| - 1]
  }

  function Shorter(b: Bytes, max: nat): Bytes {
    if |b| <= max then b else b[..max]
  }

  /** What a capture of everything offered shows. */
  function Captured(offered: Bytes, max: nat): PatchCapture {
    PatchCapture(Decode(Shorter(offered, max)), |Shorter(offered, max)|, |offered| > max)
  }

  class BoundedUtf8Capture {
    const maxBytes: nat
    var chunks: seq<Bytes>
    var capturedBytes: nat
    var truncated: bool
    /** Everything appended so far, kept or not. */
    ghost var offered: Bytes

    /** The kept chunks are the beginning of what was offered, and the flag says whether anything is missing. */
    ghost predicate Valid()
      reads this
    {
      && Concat(chunks) == Shorter(offered, maxBytes)
      && capturedBytes == |Concat(chunks)|
      && (truncated <==> |offered| > maxBytes)
    }

    constructor (maxBytes: nat)
      requires PositiveSafeInteger(maxBytes)
      ensures Valid() && this.maxBytes == maxBytes && offered == []
    {
      this.maxBytes := maxBytes;
      chunks, capturedBytes, truncated, offered := [], 0, false, [];
    }

    method Append(chunk: Bytes)
      requires Valid()
      modifies this
      ensures Valid() && offered == old(offered) + chunk
    {
      offered := offered + chunk;
      var remaining: int := maxBytes - capturedBytes;
      if remaining <= 0 {
        if |chunk| > 0 {
          truncated := true;
        }
        assert Shorter(offered, maxBytes) == Shorter(old(offered), maxBytes);
        return;
      }
      assert old(offered) == Shorter(old(offered), maxBytes);
      if |chunk| <= remaining {
        Keep(chunk);
        return;
      }
      Keep(chunk[..remaining]);
      assert old(offered) + chunk[..remaining] == offered[..maxBytes];
      truncated := true;
    }

    method Keep(chunk: Bytes)
      modifies this`chunks, this`capturedBytes
      ensures Concat(chunks) == old(Concat(chunks)) + chunk
      ensures capturedBytes == old(capturedBytes) + |chunk|
    {
      chunks := chunks + [chunk];
      capturedBytes := capturedBytes + |chunk|;
      assert chunks[..|chunks| - 1] == old(chunks);
    }

    method Snapshot() returns (s: PatchCapture)
      requires Valid()
      ensures s == Captured(offered, maxBytes)
    {
      s := PatchCapture(Decode(Concat(chunks)), capturedBytes, truncated);
    }
  }
}
