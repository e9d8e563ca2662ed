/** A connection's send buffer and its end (internal/transport/connection.go). */
module Connection {
  import opened Common
  import Frame

  type Bytes = seq<byte>

  const SEND_BUFFER_SIZE := 256

  datatype SendError = ConnectionClosed | BufferFull | TooLarge

  /** A connection as a value; `doneCloses` counts the closes of its done channel, of which Go allows one. */
  datatype Link = Link(closed: bool, doneCloses: nat, buffer: seq<Bytes>)

  const NEW_LINK := Link(false, 0, [])

  function Enqueued(link: Link, data: Bytes): (Link, Option<SendError>) {
    if link.closed then (link, Some(ConnectionClosed))
    else if |link.buffer| >= SEND_BUFFER_SIZE then (link, Some(BufferFull))
    else (link.(buffer := link.buffer + [data]), None)
  }

  /** stop: only the first call closes the done channel. */
  function Stopped(link: Link): Link {
    if link.closed then link else link.(closed := true, doneCloses := link.doneCloses + 1)
  }

  /** The buffer is bounded, and the done channel is closed exactly when the connection is, once. */
  predicate Sound(link: Link) {
    |link.buffer| <= SEND_BUFFER_SIZE && link.doneCloses == if link.closed then 1 else 0
  }

  lemma LinkStaysSound(link: Link, data: Bytes)
    requires Sound(link)
    ensures Sound(Enqueued(link, data).0) && Sound(Stopped(link)) && Sound(NEW_LINK)
    ensures Stopped(link).closed && Stopped(Stopped(link)) == Stopped(link)
    ensures Enqueued(link, data).1 == None <==> !link.closed && |link.buffer| < SEND_BUFFER_SIZE
    ensures Enqueued(link, data).1 == Some(ConnectionClosed) <==> link.closed
    ensures Enqueued(link, data).1 == Some(BufferFull) <==> !link.closed && |link.buffer| >= SEND_BUFFER_SIZE
    ensures Enqueued(link, data).0 == if Enqueued(link, data).1 == None then link.(buffer := link.buffer + [data]) else link
  {
  }

  class Connection {
    const id: nat
    var closed: bool
    var doneCloses: nat
    var send: seq<Bytes>
    var uid: int

    function Value(): Link
      reads this
    {
      Link(closed, doneCloses, send)
    }

    constructor (id: nat)
      ensures this.id == id && Value() == NEW_LINK && uid == 0
    {
      this.id, closed, doneCloses, send, uid := id, false, 0, [], 0;
    }

    method Enqueue(data: Bytes) returns (error: Option<SendError>)
      modifies this`send
      ensures (Value(), error) == Enqueued(old(Value()), data)
    {
      if closed {
        return Some(ConnectionClosed);
      }
      if |send| < SEND_BUFFER_SIZE {
        send := send + [data];
        return None;
      }
      return Some(BufferFull);
    }

    method Stop()
      modifies this`closed, this`doneCloses
      ensures Value() == Stopped(old(Value()))
    {
      if closed {
        return;
      }
      closed := true;
      doneCloses := doneCloses + 1;
    }

    /** sendMessage: a full buffer drops the message and is not reported. */
    method SendMessage(seqNo: uint32, msgId: uint16, body: Bytes) returns (error: Option<SendError>)
      modifies this`send
      ensures match Frame.Encode(Frame.Message(msgId, seqNo, body))
              case None => Value() == old(Value()) && error == Some(TooLarge)
              case Some(data) =>
                && Value() == Enqueued(old(Value()), data).0
                && error == if old(closed) then Some(ConnectionClosed) else None
    {
      match Frame.Encode(Frame.Message(msgId, seqNo, body))
      case None => return Some(TooLarge);
      case Some(data) =>
        error := Enqueue(data);
        if error == Some(BufferFull) {
          return None;
        }
    }
  }
}
