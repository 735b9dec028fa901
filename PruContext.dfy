/**
 The shared-memory context overlaid on PRU data RAM (`PruSpiContext`): two
 1024-byte buffers used as a double buffer, the index of the active buffer,
 the transmission length and the slave's maximum transmission length.
 */
module PruContext {
  import opened Types

  /** `PRU_DATA_BUFFER_SIZE`: bytes in each of the two buffers. */
  const PruDataBufferSize: nat := 0x400

  /** The buffer the accessors select for a stored index: the index itself
      when it is 0 or 1, buffer 0 for any other value. */
  function ActiveIndex(buffer: u32): (i: nat)
    ensures i < 2
    ensures buffer < 2 ==> i == buffer
    ensures buffer >= 2 ==> i == 0
  {
    if buffer >= 2 then 0 else buffer
  }

  /** `size()`: bytes of the `#[repr(C)]` layout, two byte arrays followed by
      three 4-byte fields, with no padding since 2048 is a multiple of 4. */
  function ContextSize(): (n: nat)
    ensures n > 2 * PruDataBufferSize
    ensures n % 4 == 0
  {
    2 * PruDataBufferSize + 3 * 4
  }

  /** A value snapshot of a context, used to state what `new` and `reset` produce. */
  datatype ContextState = ContextState(
    buffers: seq<seq<bv8>>,
    buffer: u32,
    length: u32,
    slaveMaxTransmissionLength: u32)

  /** One buffer of zero bytes. */
  function ZeroBuffer(): (z: seq<bv8>)
    ensures |z| == PruDataBufferSize
    ensures forall k :: 0 <= k < |z| ==> z[k] == 0
  {
    seq(PruDataBufferSize, _ => 0)
  }

  /** The state of a freshly created context: everything zero. */
  function Zeroed(): ContextState {
    ContextState([ZeroBuffer(), ZeroBuffer()], 0, 0, 0)
  }

  class PruSpiContext {
    /** The two buffers; the outer array itself is never replaced. */
    const buffers: array<array<bv8>>
    /** Index of the current buffer; the firmware toggles it. */
    var buffer: u32
    /** Bytes to transmit; the master sets it, the firmware resets it to 0. */
    var length: u32
    /** Largest inbound frame the slave accepts; the firmware resets it to 0. */
    var slaveMaxTransmissionLength: u32

    /** The layout invariant: two distinct buffers of 1024 bytes each. */
    ghost predicate Valid()
      reads this, buffers
    {
      && buffers.Length == 2
      && buffers[0].Length == PruDataBufferSize
      && buffers[1].Length == PruDataBufferSize
      && buffers[0] != buffers[1]
    }

    /** The objects that hold the context: itself and its three arrays. */
    ghost function Repr(): set<object>
      reads buffers
    {
      var outer: set<object> := {this, buffers};
      outer + if buffers.Length == 2 then {buffers[0], buffers[1]} else {}
    }

    /** The context's value. */
    ghost function State(): ContextState
      requires Valid()
      reads this, buffers, buffers[0], buffers[1]
    {
      ContextState([buffers[0][..], buffers[1][..]], buffer, length, slaveMaxTransmissionLength)
    }

    /** `new`: a zeroed context. */
    constructor ()
      ensures Valid() && fresh(buffers) && fresh(buffers[0]) && fresh(buffers[1])
      ensures State() == Zeroed()
    {
      var b0 := new bv8[PruDataBufferSize](_ => 0);
      var b1 := new bv8[PruDataBufferSize](_ => 0);
      buffers := new array<bv8>[2][b0, b1];
      buffer, length, slaveMaxTransmissionLength := 0, 0, 0;
      assert b0[..] == ZeroBuffer() && b1[..] == ZeroBuffer();
    }

    /** `get_buffer`: the contents of the current buffer, buffer 0 when the
        stored index is out of range. */
    function GetBuffer(): (r: seq<bv8>)
      requires Valid()
      reads this, buffers, buffers[0], buffers[1]
      ensures |r| == PruDataBufferSize
      ensures buffer < 2 ==> r == buffers[buffer][..]
      ensures buffer >= 2 ==> r == buffers[0][..]
    {
      buffers[ActiveIndex(buffer)][..]
    }

    /** `get_buffer_mut`: the current buffer itself, for writing in place. */
    method GetBufferMut() returns (b: array<bv8>)
      requires Valid()
      ensures b.Length == PruDataBufferSize
      ensures b == buffers[0] || b == buffers[1]
      ensures buffer < 2 ==> b == buffers[buffer]
      ensures buffer >= 2 ==> b == buffers[0]
    {
      b := buffers[ActiveIndex(buffer)];
    }

    /** A write of one byte through the slice `get_buffer_mut` hands out: only
        that byte of the current buffer changes. */
    method WriteCurrent(offset: nat, value: bv8)
      requires Valid() && offset < PruDataBufferSize
      modifies buffers[ActiveIndex(buffer)]
      ensures Valid()
      ensures GetBuffer() == old(GetBuffer())[offset := value]
      ensures buffers[1 - ActiveIndex(buffer)][..] == old(buffers[1 - ActiveIndex(buffer)][..])
      ensures unchanged(this)
    {
      var b := GetBufferMut();
      b[offset] := value;
    }

    /** `reset`: zero the three scalar fields and every byte of both buffers. */
    method Reset()
      requires Valid()
      modifies this, buffers[0], buffers[1]
      ensures Valid()
      ensures State() == Zeroed()
    {
      buffer := 0;
      length := 0;
      slaveMaxTransmissionLength := 0;
      for i := 0 to 2
        invariant buffer == 0 && length == 0 && slaveMaxTransmissionLength == 0
        invariant forall j, k :: 0 <= j < i && 0 <= k < PruDataBufferSize ==> buffers[j][k] == 0
      {
        var buf := buffers[i];
        for k := 0 to buf.Length
          invariant buffer == 0 && length == 0 && slaveMaxTransmissionLength == 0
          invariant forall m :: 0 <= m < k ==> buf[m] == 0
          invariant forall j, m :: 0 <= j < i && 0 <= m < PruDataBufferSize ==> buffers[j][m] == 0
        {
          buf[k] := 0;
        }
      }
      assert buffers[0][..] == ZeroBuffer() && buffers[1][..] == ZeroBuffer();
    }
  }
}
