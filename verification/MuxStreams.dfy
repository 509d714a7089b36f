/** One mux stream as its owner sees it: blocking reads over the receive channel, writes, halves. */
module MuxStreams {
  import opened Wrappers
  import opened Frames
  import opened FlowMeter
  import opened Streams
  import opened MuxProtocol

  /** Blocked: the call would wait, because the channel is empty and still has a sender. */
  datatype ReadResult = Blocked | Got(bytes: seq<byte>)

  /** The bytes of a channel up to its first end marker. */
  function DataBefore(queue: seq<Message>): seq<byte> {
    if queue == [] || queue[0].End? then [] else queue[0].bytes + DataBefore(queue[1..])
  }

  predicate HasEnd(queue: seq<Message>) { exists i | 0 <= i < |queue| :: queue[i].End? }

  class ReadHalf {
    var queue: seq<Message>     // messages in the channel
    var disconnected: bool      // every sender is gone
    var buf: seq<byte>
    var readClosed: bool

    ghost predicate Valid()
      reads this
    {
      readClosed ==> buf == []
    }

    /** Every byte this half can still return. */
    function Pending(): seq<byte>
      reads this
    {
      buf + if readClosed then [] else DataBefore(queue)
    }

    /** Nothing can follow the pending bytes. */
    predicate Ended()
      reads this
    {
      readClosed || HasEnd(queue) || disconnected
    }

    constructor (queue: seq<Message>, disconnected: bool, buf: seq<byte>, readClosed: bool)
      ensures this.queue == queue && this.disconnected == disconnected && this.buf == buf && this.readClosed == readClosed
    {
      this.queue, this.disconnected, this.buf, this.readClosed := queue, disconnected, buf, readClosed;
    }

    /**
     read: returns pending bytes whenever there are any, zero bytes exactly when there are none and none
     can come, and waits otherwise. Empty DATA frames are skipped and never look like the end.
     */
    method Read(cap: nat) returns (r: ReadResult)
      requires Valid()
      modifies this
      ensures Valid() && disconnected == old(disconnected)
      ensures cap == 0 ==> r == Got([]) && Pending() == old(Pending()) && Ended() == old(Ended())
      ensures cap > 0 && old(Pending()) != [] ==>
                r.Got? && 0 < |r.bytes| <= cap && old(Pending()) == r.bytes + Pending() && Ended() == old(Ended())
      ensures cap > 0 && old(Pending()) == [] && old(Ended()) ==> r == Got([]) && readClosed && Pending() == []
      ensures cap > 0 && old(Pending()) == [] && !old(Ended()) ==> r == Blocked && Pending() == [] && !Ended()
    {
      if cap == 0 {
        return Got([]);
      }
      ghost var pending, ended := Pending(), Ended();
      while true
        invariant Valid() && Pending() == pending && Ended() == ended && disconnected == old(disconnected)
        decreases |queue|, if buf == [] then 0 else 1
      {
        if buf != [] {
          var bytes := PopFront(cap);
          return Got(bytes);
        }
        if readClosed {
          return Got([]);
        }
        if queue == [] {
          if !disconnected {
            return Blocked;
          }
          readClosed := true;
          return Got([]);
        }
        var message := queue[0];
        assert forall i | 1 <= i < |queue| :: queue[i] == queue[1..][i - 1];
        queue := queue[1..];
        if message.End? {
          readClosed := true;
          return Got([]);
        }
        buf := buf + message.bytes;
      }
    }

    /** Moves up to `cap` bytes out of the buffer, one at a time. */
    method PopFront(cap: nat) returns (bytes: seq<byte>)
      modifies this`buf
      ensures bytes + buf == old(buf) && |bytes| == if cap < |old(buf)| then cap else |old(buf)|
    {
      bytes := [];
      var n := if cap < |buf| then cap else |buf|;
      while |bytes| < n
        invariant |bytes| <= n && bytes + buf == old(buf)
        decreases n - |bytes|
      {
        bytes, buf := bytes + [buf[0]], buf[1..];
      }
    }
  }

  class WriteHalf {
    const id: u64
    var writeClosed: bool

    constructor (id: u64, writeClosed: bool)
      ensures this.id == id && this.writeClosed == writeClosed
    {
      this.id, this.writeClosed := id, writeClosed;
    }

    /** write: after the close nothing goes out; before it the payload goes out as one DATA frame. */
    method Write(sink: Sink, counter: FlowCounter, cap: nat, data: seq<byte>) returns (ok: bool)
      modifies sink, counter
      ensures ok <==> !writeClosed && Passes(cap, old(counter.State()), DataFrame(id, data))
                      && |Bytes(DataFrame(id, data))| <= old(sink.room)
      ensures ok ==> sink.written == old(sink.written) + Bytes(DataFrame(id, data))
      ensures writeClosed ==> sink.written == old(sink.written) && counter.State() == old(counter.State())
    {
      if writeClosed {
        return false;
      }
      ok := SendFrame(sink, counter, cap, DataFrame(id, data));
    }

    /** close_write_once: the first call sends CLOSE and drops the table entry, later ones do nothing. */
    method CloseWriteOnce(sink: Sink, counter: FlowCounter, table: StreamTable, attached: bool)
      modifies this`writeClosed, sink, counter, table
      ensures writeClosed && counter.State() == old(counter.State())
      ensures old(writeClosed) || !attached ==> sink.written == old(sink.written) && table.ids == old(table.ids)
      ensures !old(writeClosed) && attached ==>
                table.ids == old(table.ids) - {id} && sink.written == old(sink.written) + CloseSent(id, old(sink.room))
    {
      if writeClosed {
        return;
      }
      writeClosed := true;
      if attached {
        var sent := SendFrame(sink, counter, 0, CloseFrame(id));
        assert sent ==> CloseSent(id, old(sink.room)) == Bytes(CloseFrame(id));
        table.Remove(id);
      }
    }
  }

  /** What a transport with so much room takes of a CLOSE frame. */
  function CloseSent(id: u64, room: nat): seq<byte> {
    var bytes := Bytes(CloseFrame(id));
    if |bytes| <= room then bytes else bytes[..room]
  }

  /** The ids with a sender in the session's stream table. */
  class StreamTable {
    var ids: set<u64>

    method Remove(id: u64)
      modifies this
      ensures ids == old(ids) - {id}
    {
      ids := ids - {id};
    }
  }

  /** A stream that has not been taken apart. `moved` stands for ManuallyDrop: its drop no longer runs. */
  class Entire {
    const id: u64
    const reader: ReadHalf
    const writer: WriteHalf
    var moved: bool

    constructor (reader: ReadHalf, writer: WriteHalf)
      ensures this.reader == reader && this.writer == writer && this.id == writer.id && !moved
    {
      this.reader, this.writer, this.id, moved := reader, writer, writer.id, false;
    }

    /** into_io_halves: the halves carry the channel, the buffered bytes and copies of both flags. */
    method IntoHalves() returns (r: ReadHalf, w: WriteHalf)
      requires reader.Valid() && id == writer.id
      modifies this
      ensures moved && fresh(r) && fresh(w) && r.Valid()
      ensures r.queue == reader.queue && r.buf == reader.buf && r.disconnected == reader.disconnected
      ensures r.readClosed == reader.readClosed && r.Pending() == reader.Pending() && r.Ended() == reader.Ended()
      ensures w.id == id && w.writeClosed == writer.writeClosed
    {
      moved := true;
      r := new ReadHalf(reader.queue, reader.disconnected, reader.buf, reader.readClosed);
      w := new WriteHalf(id, writer.writeClosed);
    }

    /** drop: closes unless the stream has been taken apart. */
    method Drop(sink: Sink, counter: FlowCounter, table: StreamTable, attached: bool)
      modifies writer`writeClosed, sink, counter, table
      ensures counter.State() == old(counter.State())
      ensures moved || old(writer.writeClosed) || !attached ==>
                sink.written == old(sink.written) && table.ids == old(table.ids)
      ensures !moved && !old(writer.writeClosed) && attached ==>
                table.ids == old(table.ids) - {writer.id}
                && sink.written == old(sink.written) + CloseSent(writer.id, old(sink.room))
    {
      if !moved {
        writer.CloseWriteOnce(sink, counter, table, attached);
      }
    }

    /**
     The life of a stream that is split: after a shutdown of the write half, its drop, the read half's
     drop and the end of the husk it came from, exactly one CLOSE has been sent, or none if the
     stream was closed before.
     */
    method SplitAndDrop(sink: Sink, counter: FlowCounter, table: StreamTable)
      requires reader.Valid() && id == writer.id && !moved
      modifies this, writer`writeClosed, sink, counter, table
      ensures counter.State() == old(counter.State())
      ensures table.ids == if old(writer.writeClosed) then old(table.ids) else old(table.ids) - {id}
      ensures sink.written == old(sink.written)
                              + if old(writer.writeClosed) then [] else CloseSent(id, old(sink.room))
    {
      var _, w := IntoHalves();
      w.CloseWriteOnce(sink, counter, table, true);    // shutdown_write
      w.CloseWriteOnce(sink, counter, table, true);    // drop of the write half
      Drop(sink, counter, table, true);                // the husk
    }
  }
}
