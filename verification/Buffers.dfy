/** Byte buffers, shared by the blob codec and the screencast recorder. */
module Buffers {
  import opened Basics

  type Bytes = seq<byte>

  /** Copies `part` to position `off`: `part.copy(target, off)` and `target.set(part, off)`. */
  method CopyInto(target: array<byte>, off: nat, part: Bytes)
    requires off + |part| <= target.Length
    modifies target
    ensures target[..off + |part|] == old(target[..off]) + part
    ensures target[off + |part|..] == old(target[off + |part|..])
  {
    for k := 0 to |part|
      invariant target[..off] == old(target[..off])
      invariant target[off..off + k] == part[..k]
      invariant target[off + |part|..] == old(target[off + |part|..])
    {
      target[off + k] := part[k];
      assert target[off..off + k + 1] == part[..k] + [part[k]];
    }
    assert target[..off + |part|] == target[..off] + target[off..off + |part|];
  }
}
