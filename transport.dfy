/** The two transports the stream server sits between, reduced to the byte
    sequences they carry. Neither driver is modelled: the UART is a queue of
    bytes waiting to be read plus the log of bytes written to it, and a TCP
    connection is the log of bytes sent through it plus whether it was closed. */
module Transport {

  newtype byte = b: int | 0 <= b < 256

  /** The UART (or any byte stream) the component bridges. */
  class UartStream {
    /** Bytes received by the peripheral and not yet read. */
    var pending: seq<byte>
    /** Every byte written to the peripheral, in order. */
    var output: seq<byte>
    /** The blocks taken by `read_array`, one per call, in order. */
    var taken: seq<seq<byte>>
    /** The blocks handed to `write_array`, one per call, in order. */
    var written: seq<seq<byte>>

    constructor (incoming: seq<byte>)
      ensures pending == incoming && output == [] && taken == [] && written == []
    {
      pending := incoming;
      output := [];
      taken := [];
      written := [];
    }

    /** `available()`: how many bytes can be read without blocking. */
    method Available() returns (n: int)
      ensures n == |pending|
    {
      n := |pending|;
    }

    /** `read_array(buf, len)`: moves the first `len` pending bytes into `buf`. */
    method ReadArray(buf: array<byte>, len: nat)
      requires len <= |pending| && len <= buf.Length
      modifies this, buf
      ensures buf[..len] == old(pending[..len]) && buf[len..] == old(buf[len..])
      ensures pending == old(pending[len..]) && output == old(output)
      ensures taken == old(taken) + [old(pending[..len])] && written == old(written)
    {
      forall i | 0 <= i < len {
        buf[i] := pending[i];
      }
      taken := taken + [pending[..len]];
      pending := pending[len..];
    }

    /** `write_array(data)`: queues `data` for transmission as one block. */
    method WriteArray(data: seq<byte>)
      modifies this
      ensures output == old(output) + data && written == old(written) + [data]
      ensures pending == old(pending) && taken == old(taken)
    {
      output := output + data;
      written := written + [data];
    }

    /** Bytes arriving on the wire between two ticks. */
    method Receive(data: seq<byte>)
      modifies this
      ensures pending == old(pending) + data && output == old(output)
      ensures taken == old(taken) && written == old(written)
    {
      pending := pending + data;
    }
  }

  /** One accepted TCP connection (`AsyncClient`). */
  class Connection {
    /** Every byte handed to `write`, in order. */
    var sent: seq<byte>
    /** The blocks handed to `write`, one per call, in order. */
    var blocks: seq<seq<byte>>
    /** Set once `close` has been called. */
    var closed: bool

    constructor ()
      ensures sent == [] && blocks == [] && !closed
    {
      sent := [];
      blocks := [];
      closed := false;
    }

    /** `write(buf, len)`: sends the first `len` bytes of `buf` as one block. */
    method Write(buf: array<byte>, len: nat)
      requires len <= buf.Length
      modifies this
      ensures sent == old(sent) + buf[..len] && blocks == old(blocks) + [buf[..len]]
      ensures closed == old(closed)
    {
      sent := sent + buf[..len];
      blocks := blocks + [buf[..len]];
    }

    /** `close(force)`: the connection is closed; nothing more is sent by it. */
    method Close(force: bool)
      modifies this
      ensures closed && sent == old(sent) && blocks == old(blocks)
    {
      closed := true;
    }
  }
}
