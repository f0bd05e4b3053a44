/** The console's own receive buffer: room for four messages, of which only the
    first is ever copied. */
module ReceiveBuffers {
  import opened Machine
  import opened Channels

  const RX_CONSOLE_SIZE := RX_BUFFER_SIZE * 4

  /** `buffer` after copying the part of `msg` from position `pos` on. */
  function Copied(buffer: seq<byte>, msg: seq<byte>, pos: nat): seq<byte>
    requires |msg| == RX_BUFFER_SIZE
  {
    seq(|buffer|, j requires 0 <= j < |buffer| => if pos <= j < RX_BUFFER_SIZE - 1 then msg[j] else buffer[j])
  }

  /** From position 63 on nothing is copied; before it, the rest of the first message. */
  lemma CopiedIsTail(buffer: seq<byte>, msg: seq<byte>, pos: nat)
    requires |buffer| == RX_CONSOLE_SIZE && |msg| == RX_BUFFER_SIZE
    ensures Copied(buffer, msg, pos) ==
            if pos < RX_BUFFER_SIZE - 1
            then buffer[..pos] + msg[pos..RX_BUFFER_SIZE - 1] + buffer[RX_BUFFER_SIZE - 1..]
            else buffer
  {
  }

  /** What appending would be: the message, up to its last byte, at the position. */
  function Appended(buffer: seq<byte>, msg: seq<byte>, pos: nat): seq<byte>
    requires |buffer| == RX_CONSOLE_SIZE && |msg| == RX_BUFFER_SIZE && pos < RX_CONSOLE_SIZE - RX_BUFFER_SIZE
  {
    buffer[..pos] + msg[..RX_BUFFER_SIZE - 1] + buffer[pos + RX_BUFFER_SIZE - 1..]
  }

  ghost predicate Appends(pos: nat)
    requires pos < RX_CONSOLE_SIZE - RX_BUFFER_SIZE
  {
    forall buffer: seq<byte>, msg: seq<byte> | |buffer| == RX_CONSOLE_SIZE && |msg| == RX_BUFFER_SIZE ::
      Copied(buffer, msg, pos) == Appended(buffer, msg, pos)
  }

  /** At a position that is not refused, the copy appends every message to every
      buffer exactly when the buffer is empty. */
  lemma AppendsIff(pos: nat)
    requires pos < RX_CONSOLE_SIZE - RX_BUFFER_SIZE
    ensures Appends(pos) <==> pos == 0
  {
    if pos == 0 {
      forall buffer: seq<byte>, msg: seq<byte> | |buffer| == RX_CONSOLE_SIZE && |msg| == RX_BUFFER_SIZE
        ensures Copied(buffer, msg, 0) == Appended(buffer, msg, 0)
      {
      }
    } else {
      var buffer: seq<byte> := seq(RX_CONSOLE_SIZE, _ => 0);
      var msg: seq<byte> := seq(RX_BUFFER_SIZE, _ => 1);
      var last := pos + RX_BUFFER_SIZE - 2;
      assert Copied(buffer, msg, pos)[last] == 0;
      assert Appended(buffer, msg, pos)[last] == 1;
    }
  }

  class ReceiveBuffer {
    const data: array<byte>
    var pos: nat

    ghost predicate Valid()
      reads this
    {
      data.Length == RX_CONSOLE_SIZE && pos <= RX_CONSOLE_SIZE
    }

    constructor ()
      ensures Valid() && pos == 0 && fresh(data) && data[0] == 0
    {
      data, pos := new byte[RX_CONSOLE_SIZE], 0;
      new;
      data[0] := 0;
    }

    /** `virtio_console_rx_append_buffer` from the message at `mem[off..]`: once
        the position has passed the end of one message it still advances, but
        nothing is copied. */
    method Append(mem: array<byte>, off: nat) returns (ok: bool)
      requires Valid() && mem != data && off + RX_BUFFER_SIZE <= mem.Length
      modifies data, `pos
      ensures Valid()
      ensures ok <==> old(pos) < RX_CONSOLE_SIZE - RX_BUFFER_SIZE
      ensures !ok ==> pos == old(pos) && data[..] == old(data[..])
      ensures ok ==> pos == old(pos) + RX_BUFFER_SIZE - 1
      ensures ok ==> data[..] == Copied(old(data[..]), mem[off..off + RX_BUFFER_SIZE], old(pos))
    {
      ok := true;
      if pos >= RX_CONSOLE_SIZE - RX_BUFFER_SIZE {
        ok := false;
      } else {
        var i := pos;
        while i < RX_BUFFER_SIZE - 1 && pos < RX_CONSOLE_SIZE
          invariant pos == old(pos) <= i
          invariant forall j | 0 <= j < RX_CONSOLE_SIZE ::
                      data[j] == if pos <= j < i && j < RX_BUFFER_SIZE - 1 then mem[off + j] else old(data[j])
        {
          data[i] := mem[off + i];
          i := i + 1;
        }
        pos := pos + RX_BUFFER_SIZE - 1;
      }
    }

    /** `virtio_console_rx_append_null`. */
    method AppendNull() returns (ok: bool)
      requires Valid()
      modifies data, `pos
      ensures Valid()
      ensures ok <==> old(pos) < RX_CONSOLE_SIZE - 1
      ensures !ok ==> pos == old(pos) && data[..] == old(data[..])
      ensures ok ==> pos == old(pos) + 1 && data[..] == old(data[..])[old(pos) := 0]
    {
      ok := true;
      if pos < RX_CONSOLE_SIZE - 1 {
        data[pos] := 0;
        pos := pos + 1;
      } else {
        ok := false;
      }
    }

    /** `virtio_console_rx_reset_buffer`. */
    method Reset()
      requires Valid()
      modifies data, `pos
      ensures Valid() && pos == 0 && data[..] == old(data[..])[0 := 0]
    {
      data[0] := 0;
      pos := 0;
    }

    /** `virtio_console_rx_has_buffers`. */
    predicate HasBuffers()
      reads this
    {
      pos > 1
    }
  }
}
