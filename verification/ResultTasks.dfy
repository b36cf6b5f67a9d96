/** The bytes of the result pipeline: frames, the result kernel, and the checks of the tasks. */
module ResultTasks {
  import opened GpuTypes

  type Bytes = seq<bv8>

  /** The input bytes of a frame: a counter that starts at the frame id. */
  function FrameBytes(frameId: nat, bytes: nat): (frame: Bytes)
    ensures |frame| == bytes
    ensures forall i :: 0 <= i < bytes ==> frame[i] == ((frameId + i) % 256) as bv8
  {
    seq(bytes, i requires 0 <= i => ((frameId + i) % 256) as bv8)
  }

  /** What the kernel computes, byte by byte. */
  function Transform(input: Bytes): (output: Bytes)
    ensures |output| == |input| && forall i :: 0 <= i < |input| ==> output[i] == input[i] ^ 0x5a
  {
    seq(|input|, i requires 0 <= i < |input| => input[i] ^ 0x5a)
  }

  /** The kernel is its own inverse, so no information about the frame is lost. */
  lemma TransformIsInvolutive(input: Bytes)
    ensures Transform(Transform(input)) == input
  {
    forall i | 0 <= i < |input|
      ensures Transform(Transform(input))[i] == input[i]
    {
      XorTwice(input[i]);
    }
  }

  lemma XorTwice(b: bv8)
    ensures (b ^ 0x5a) ^ 0x5a == b
  {
  }

  function Checksum(bytes: Bytes): nat {
    if bytes == [] then 0 else Checksum(bytes[..|bytes| - 1]) + bytes[|bytes| - 1] as nat
  }

  /** The sum of a payload of the largest accepted size fits a 64-bit counter. */
  lemma {:induction false} ChecksumFits(bytes: Bytes)
    ensures Checksum(bytes) <= 255 * |bytes|
    ensures |bytes| <= 16777216 ==> Checksum(bytes) <= SIZE_MAX
  {
    if bytes != [] {
      ChecksumFits(bytes[..|bytes| - 1]);
      ByteBound(bytes[|bytes| - 1]);
    }
  }

  /** A single byte counts as its value, and the sums of two payloads add up: this fixes every sum. */
  lemma {:induction false} ChecksumAddsUp(a: Bytes, b: Bytes)
    ensures forall x: bv8 :: Checksum([x]) == x as nat
    ensures Checksum(a + b) == Checksum(a) + Checksum(b)
  {
    if b == [] {
      assert a + b == a;
    } else {
      var n := |b| - 1;
      ChecksumAddsUp(a, b[..n]);
      assert (a + b)[..|a| + n] == a + b[..n];
    }
  }

  /** A single byte that has changed shows in the sum. */
  lemma ChecksumDetects(bytes: Bytes, i: nat, x: bv8)
    requires i < |bytes|
    ensures Checksum(bytes[i := x]) == Checksum(bytes) - bytes[i] as nat + x as nat
  {
    var low, high := bytes[..i], bytes[i + 1..];
    assert bytes == low + [bytes[i]] + high && bytes[i := x] == low + [x] + high;
    ChecksumAddsUp(low, [bytes[i]]);
    ChecksumAddsUp(low, [x]);
    ChecksumAddsUp(low + [bytes[i]], high);
    ChecksumAddsUp(low + [x], high);
  }

  lemma ByteBound(b: bv8)
    ensures b as nat <= 255
  {
  }

  /** How a frame of the pipeline is described to the cache: one row of bytes. */
  function AtomMetadata(id: nat, bytes: nat): FrameMetadata {
    FrameMetadata(GpuDataKey(id, 0, 0), bytes, bytes, 1, 1)
  }

  /** One reusable atom: what travels through the pipeline in a slot. */
  class ResultAtom {
    var metadata: FrameMetadata
    var frame: array<bv8>
    var result: array<bv8>
    var cpuStages: nat
    var checksum: nat
    var ready: bool

    ghost predicate Valid(bytes: nat)
      reads this
    {
      frame.Length == bytes && result.Length == bytes && frame != result
        && metadata == AtomMetadata(metadata.key.frameId, bytes)
    }

    constructor (id: nat, bytes: nat)
      ensures Valid(bytes) && metadata == AtomMetadata(id, bytes) && frame[..] == FrameBytes(id, bytes)
      ensures forall i :: 0 <= i < bytes ==> result[i] == 0
      ensures cpuStages == 0 && checksum == 0 && !ready && fresh(frame) && fresh(result)
    {
      metadata, cpuStages, checksum, ready := AtomMetadata(id, bytes), 0, 0, false;
      frame := new bv8[bytes](i requires 0 <= i => ((id + i) % 256) as bv8);
      result := new bv8[bytes](i => 0);
      new;
      assert frame[..] == FrameBytes(id, bytes);
    }

    /** The producer's preparation of a recycled atom for its next frame; the old result stays until it is replaced. */
    method Reuse(id: nat)
      requires Valid(frame.Length)
      modifies this`metadata, this`cpuStages, this`checksum, this`ready, frame
      ensures Valid(frame.Length) && metadata == AtomMetadata(id, frame.Length)
              && frame[..] == FrameBytes(id, frame.Length)
      ensures cpuStages == 0 && checksum == 0 && !ready && result[..] == old(result[..])
    {
      metadata := metadata.(key := metadata.key.(frameId := id));
      ready, cpuStages, checksum := false, 0, 0;
      for index := 0 to frame.Length
        invariant forall j :: 0 <= j < index ==> frame[j] == ((id + j) % 256) as bv8
        modifies frame
      {
        frame[index] := ((id + index) % 256) as bv8;
      }
      assert frame[..] == FrameBytes(id, frame.Length);
    }

    /** One CPU stage: it needs a ready result, sums it up and counts itself. */
    method ExecuteCpuStage() returns (ok: bool)
      requires Valid(result.Length)
      modifies this`checksum, this`cpuStages
      ensures ok == (ready && result.Length != 0)
      ensures if ok then checksum == Checksum(result[..]) && cpuStages == old(cpuStages) + 1
              else checksum == old(checksum) && cpuStages == old(cpuStages)
    {
      if !ready || result.Length == 0 {
        return false;
      }
      checksum := Accumulate(result);
      cpuStages := cpuStages + 1;
      return true;
    }
  }

  method Accumulate(bytes: array<bv8>) returns (sum: nat)
    ensures sum == Checksum(bytes[..])
  {
    sum := 0;
    for i := 0 to bytes.Length
      invariant sum == Checksum(bytes[..i])
    {
      assert bytes[..i + 1][..i] == bytes[..i];
      sum := sum + bytes[i] as nat;
    }
    assert bytes[..bytes.Length] == bytes[..];
  }

  /** The result kernel: every index is written once, from the input at the same index. */
  method RunResultKernel(input: array<bv8>, output: array<bv8>)
    requires input != output && input.Length == output.Length
    modifies output
    ensures output[..] == Transform(input[..])
  {
    for index := 0 to input.Length
      invariant forall j :: 0 <= j < index ==> output[j] == input[j] ^ 0x5a
    {
      output[index] := input[index] ^ 0x5a;
    }
  }

  /** The consumer's checks: its bytes are the recorded result, and both are what the frame calls for. */
  method VerifyResult(bytes: array<bv8>, atom: ResultAtom, requiredCpuStages: nat) returns (ok: bool)
    requires atom.Valid(bytes.Length)
    ensures ok <==>
            && bytes[..] == atom.result[..] && bytes[..] == Transform(atom.frame[..])
            && (requiredCpuStages == 0 || atom.checksum == Checksum(atom.result[..]))
  {
    for index := 0 to bytes.Length
      invariant bytes[..index] == atom.result[..index]
    {
      if bytes[index] != atom.result[index] {
        assert bytes[..][index] != atom.result[..][index];
        return false;
      }
    }
    assert bytes[..] == bytes[..bytes.Length] && atom.result[..] == atom.result[..bytes.Length];
    for index := 0 to bytes.Length
      invariant forall j :: 0 <= j < index ==> bytes[j] == atom.frame[j] ^ 0x5a
    {
      if bytes[index] != atom.frame[index] ^ 0x5a {
        assert bytes[..][index] != Transform(atom.frame[..])[index];
        return false;
      }
    }
    var sum := Accumulate(atom.result);
    ok := requiredCpuStages == 0 || atom.checksum == sum;
  }
}
