/**
 One connection end to end, for every interleaving of its reader, its writer, pushes from elsewhere and its end: what
 reaches the wire.
 */
module Wire {
  import opened Common
  import opened Kernel
  import opened Connection
  import Frame

  /** The kernel behind the connection, and how error replies are marshalled. */
  datatype Server<!W> = Server(
    handlers: map<uint16, HandlerEntry<W>>,
    chain: Chain<W>,
    errorBody: (int32, string) -> Bytes)

  /** Where a frame in the send buffer came from: a push of this message, or the answer to the request read here. */
  datatype Origin = Pushed(msgId: uint16, body: Bytes) | Answer(position: nat)

  datatype Sent = Sent(frame: Bytes, origin: Origin)

  datatype Reader = Reading | Replying(reply: Reply) | ReaderGone

  datatype Writer = Waiting | Writing(frame: Bytes) | WriterGone

  /**
   `read` is every frame dispatched so far and `states` the state each was dispatched in, `accepted` everything the send
   buffer ever took in and `written` what the writer got onto the socket; `state` is what hooks and handlers share with
   the rest of the server.
   */
  datatype Wire<W> = Wire(
    state: W,
    reader: Reader,
    writer: Writer,
    link: Link,
    read: seq<Bytes>,
    states: seq<W>,
    accepted: seq<Sent>,
    written: seq<Bytes>)

  datatype Action<W> =
    | Read(data: Bytes)
    | Reply
    | ReaderFails
    | Push(msgId: uint16, body: Bytes)
    | Take
    | Write
    | WriteFails
    | WriterSeesDone
    | Stop
    | Elsewhere(state: W)

  function Open<W>(state: W): Wire<W> {
    Wire(state, Reading, Waiting, NEW_LINK, [], [], [], [])
  }

  // ---------------------------------------------------------------------------------------------------------------
  // Steps
  // ---------------------------------------------------------------------------------------------------------------

  function BodyOf<W>(server: Server<W>, content: Content): Bytes {
    match content
    case Response(body) => body
    case Failure(code, message) => server.errorBody(code, message)
  }

  /** sendMessage: frames that are too large, or find the buffer full or closed, are dropped. */
  function Send<W>(c: Wire<W>, msg: Frame.Message, origin: Origin): Wire<W> {
    match Frame.Encode(msg)
    case None => c
    case Some(data) =>
      var (link, error) := Enqueued(c.link, data);
      if error.Some? then c else c.(link := link, accepted := c.accepted + [Sent(data, origin)])
  }

  /** Every action is possible in every state; one that does not apply changes nothing. */
  function Step<W>(server: Server<W>, c: Wire<W>, action: Action<W>): Wire<W> {
    match action
    case Read(data) =>
      if !c.reader.Reading? then c
      else
        var outcome := Dispatch(server.handlers, server.chain, c.state, data);
        c.(state := outcome.state,
           read := c.read + [data],
           states := c.states + [c.state],
           reader := if outcome.fatal then ReaderGone
                     else if outcome.reply.Some? then Replying(outcome.reply.value)
                     else Reading)
    case Reply =>
      if !c.reader.Replying? || c.read == [] then c
      else
        var reply := c.reader.reply;
        Send(c.(reader := Reading), Frame.Message(reply.msgId, reply.seqNo, BodyOf(server, reply.content)),
             Answer(|c.read| - 1))
    case ReaderFails => if c.reader.Reading? then c.(reader := ReaderGone, link := Stopped(c.link)) else c
    case Push(msgId, body) => Send(c, Frame.Message(msgId, 0, body), Pushed(msgId, body))
    case Take =>
      if c.writer.Waiting? && c.link.buffer != [] then
        c.(writer := Writing(c.link.buffer[0]), link := c.link.(buffer := c.link.buffer[1..]))
      else c
    case Write =>
      if c.writer.Writing? then c.(writer := Waiting, written := c.written + [c.writer.frame]) else c
    case WriteFails => if c.writer.Writing? then c.(writer := WriterGone, link := Stopped(c.link)) else c
    case WriterSeesDone => if c.writer.Waiting? && c.link.closed then c.(writer := WriterGone) else c
    case Stop => c.(link := Stopped(c.link))
    case Elsewhere(state) => c.(state := state)
  }

  function Run<W>(server: Server<W>, start: W, actions: seq<Action<W>>): Wire<W> {
    if actions == [] then Open(start)
    else Step(server, Run(server, start, actions[..|actions| - 1]), actions[|actions| - 1])
  }

  // ---------------------------------------------------------------------------------------------------------------
  // What every run keeps
  // ---------------------------------------------------------------------------------------------------------------

  function Frames(sent: seq<Sent>): seq<Bytes> {
    seq(|sent|, i requires 0 <= i < |sent| => sent[i].frame)
  }

  function InHand(writer: Writer): seq<Bytes> {
    if writer.Writing? then [writer.frame] else []
  }

  /** Nothing is lost, added or reordered between the buffer and the socket, except by a failing write. */
  ghost predicate Fifo<W>(c: Wire<W>) {
    if c.writer.WriterGone? then c.written <= Frames(c.accepted)
    else Frames(c.accepted) == c.written + InHand(c.writer) + c.link.buffer
  }

  /** The frame read at this position was not fatal, nor any before it. */
  ghost predicate LiveAt(read: seq<Bytes>, position: nat) {
    position < |read| && forall i :: 0 <= i <= position ==> !FatalFrame(read[i])
  }

  /** The message is this reply on the wire. */
  ghost predicate Carries<W>(server: Server<W>, msg: Frame.Message, reply: Reply) {
    && msg.msgId == reply.msgId
    && msg.seqNo == reply.seqNo
    && match reply.content
       case Response(body) => msg.body == body
       case Failure(code, text) => msg.body == server.errorBody(code, text)
  }

  /** What Dispatch answered to the request read at this position, in the state it was read in. */
  ghost predicate AnsweredBy<W>(server: Server<W>, c: Wire<W>, position: nat, reply: Reply) {
    && position < |c.read| == |c.states|
    && Dispatch(server.handlers, server.chain, c.states[position], c.read[position]).reply == Some(reply)
  }

  /** The message in a frame of the buffer: the one that was pushed, with seq 0, or the answer to its request. */
  ghost predicate WellSent<W>(server: Server<W>, c: Wire<W>, sent: Sent) {
    && Frame.Decode(sent.frame).Ok?
    && var msg := Frame.Decode(sent.frame).value;
    match sent.origin
    case Pushed(msgId, body) => msg == Frame.Message(msgId, 0, body)
    case Answer(position) =>
      && LiveAt(c.read, position)
      && msg.seqNo == Frame.Decode(c.read[position]).value.seqNo != 0
      && exists reply :: AnsweredBy(server, c, position, reply) && Carries(server, msg, reply)
  }

  ghost predicate AnswersInOrder(accepted: seq<Sent>) {
    forall i, j :: 0 <= i < j < |accepted| && accepted[i].origin.Answer? && accepted[j].origin.Answer? ==>
      accepted[i].origin.position < accepted[j].origin.position
  }

  /** The reader: which frames it has answered, and what it is about to answer. */
  ghost predicate ReaderRight<W>(server: Server<W>, c: Wire<W>) {
    && |c.states| == |c.read|
    && (forall i :: 0 <= i < |c.read| - 1 ==> !FatalFrame(c.read[i]))
    && (!c.reader.ReaderGone? && c.read != [] ==> !FatalFrame(c.read[|c.read| - 1]))
    && (c.reader.Replying? ==>
          && c.read != []
          && AnsweredBy(server, c, |c.read| - 1, c.reader.reply)
          && forall sent :: sent in c.accepted && sent.origin.Answer? ==> sent.origin.position < |c.read| - 1)
  }

  ghost predicate WireInv<W>(server: Server<W>, c: Wire<W>) {
    && Sound(c.link)
    && Fifo(c)
    && (forall sent :: sent in c.accepted ==> WellSent(server, c, sent))
    && AnswersInOrder(c.accepted)
    && ReaderRight(server, c)
  }

  /** What was well sent stays so while only the buffer or the end of the stream changes. */
  lemma WellSentStays<W>(server: Server<W>, c: Wire<W>, after: Wire<W>, sent: Sent)
    requires WellSent(server, c, sent) && |c.read| == |c.states|
    requires c.read <= after.read && c.states <= after.states && |after.read| == |after.states|
    ensures WellSent(server, after, sent)
  {
    if sent.origin.Answer? {
      var msg := Frame.Decode(sent.frame).value;
      var reply :| AnsweredBy(server, c, sent.origin.position, reply) && Carries(server, msg, reply);
      assert AnsweredBy(server, after, sent.origin.position, reply);
    }
  }

  lemma SendKeepsFifo<W>(c: Wire<W>, msg: Frame.Message, origin: Origin)
    requires Fifo(c)
    ensures Fifo(Send(c, msg, origin))
  {
    var after := Send(c, msg, origin);
    if after != c {
      var data := Frame.Encode(msg).value;
      assert Frames(after.accepted) == Frames(c.accepted) + [data];
      if c.writer.WriterGone? {
        assert c.written <= Frames(after.accepted);
      } else {
        assert c.written + InHand(c.writer) + (c.link.buffer + [data])
            == (c.written + InHand(c.writer) + c.link.buffer) + [data];
      }
    }
  }

  lemma SendKeeps<W>(server: Server<W>, c: Wire<W>, msg: Frame.Message, origin: Origin)
    requires WireInv(server, c)
    requires match origin
             case Pushed(msgId, body) => msg == Frame.Message(msgId, 0, body)
             case Answer(position) =>
               && LiveAt(c.read, position) && !c.reader.Replying?
               && msg.seqNo == Frame.Decode(c.read[position]).value.seqNo != 0
               && (exists reply :: AnsweredBy(server, c, position, reply) && Carries(server, msg, reply))
               && forall sent :: sent in c.accepted && sent.origin.Answer? ==> sent.origin.position < position
    ensures WireInv(server, Send(c, msg, origin))
  {
    var after := Send(c, msg, origin);
    SendKeepsFifo(c, msg, origin);
    if after != c {
      Frame.DecodeInvertsEncode(msg);
      forall sent | sent in after.accepted ensures WellSent(server, after, sent) {
        if sent in c.accepted {
          WellSentStays(server, c, after, sent);
        } else if origin.Answer? {
          var reply :| AnsweredBy(server, c, origin.position, reply) && Carries(server, msg, reply);
          assert AnsweredBy(server, after, origin.position, reply);
        }
      }
    }
  }

  lemma ReadKeeps<W>(server: Server<W>, c: Wire<W>, data: Bytes)
    requires WireInv(server, c) && c.reader.Reading?
    ensures WireInv(server, Step(server, c, Read(data)))
  {
    DispatchAnswers(server.handlers, server.chain, c.state, data);
    var after := Step(server, c, Read(data));
    forall sent | sent in c.accepted ensures WellSent(server, after, sent) {
      WellSentStays(server, c, after, sent);
    }
  }

  /** The answer in hand goes to the buffer. */
  lemma ReplyKeeps<W>(server: Server<W>, c: Wire<W>)
    requires WireInv(server, c) && c.reader.Replying?
    ensures WireInv(server, Step(server, c, Action.Reply))
  {
    var reply := c.reader.reply;
    var position := |c.read| - 1;
    var reading := c.(reader := Reading);
    var msg := Frame.Message(reply.msgId, reply.seqNo, BodyOf(server, reply.content));
    assert LiveAt(c.read, position);
    DispatchAnswers(server.handlers, server.chain, c.states[position], c.read[position]);
    QuietKeeps(server, c, reading);
    assert AnsweredBy(server, reading, position, reply) && Carries(server, msg, reply);
    SendKeeps(server, reading, msg, Answer(position));
  }

  /** Nothing was read, sent or written. */
  lemma QuietKeeps<W>(server: Server<W>, c: Wire<W>, after: Wire<W>)
    requires WireInv(server, c) && Sound(after.link) && Fifo(after)
    requires after.read == c.read && after.states == c.states && after.accepted == c.accepted
    requires after.reader == c.reader || (c.reader.Replying? && after.reader.Reading?) || after.reader.ReaderGone?
    ensures WireInv(server, after)
  {
    forall sent | sent in after.accepted ensures WellSent(server, after, sent) {
      WellSentStays(server, c, after, sent);
    }
  }

  /** The writer moves frames on and touches nothing else. */
  lemma WriterKeepsFifo<W>(server: Server<W>, c: Wire<W>, action: Action<W>)
    requires Fifo(c) && (action.Take? || action.Write? || action.WriteFails? || action.WriterSeesDone?)
    ensures Fifo(Step(server, c, action))
  {
    var after := Step(server, c, action);
    if after != c {
      match action
      case Take =>
        assert c.link.buffer == [c.link.buffer[0]] + c.link.buffer[1..];
      case Write =>
        assert c.written + [c.writer.frame] + c.link.buffer == after.written + [] + after.link.buffer;
      case WriteFails =>
        assert Frames(c.accepted) == c.written + (InHand(c.writer) + c.link.buffer);
      case WriterSeesDone =>
        assert Frames(c.accepted) == c.written + (InHand(c.writer) + c.link.buffer);
    }
  }

  lemma WriterKeeps<W>(server: Server<W>, c: Wire<W>, action: Action<W>)
    requires WireInv(server, c) && (action.Take? || action.Write? || action.WriteFails? || action.WriterSeesDone?)
    ensures WireInv(server, Step(server, c, action))
  {
    WriterKeepsFifo(server, c, action);
    QuietKeeps(server, c, Step(server, c, action));
  }

  lemma StepKeeps<W>(server: Server<W>, c: Wire<W>, action: Action<W>)
    requires WireInv(server, c)
    ensures WireInv(server, Step(server, c, action))
  {
    match action
    case Read(data) => if c.reader.Reading? { ReadKeeps(server, c, data); }
    case Reply => if c.reader.Replying? { ReplyKeeps(server, c); }
    case Push(msgId, body) => SendKeeps(server, c, Frame.Message(msgId, 0, body), Pushed(msgId, body));
    case Take => WriterKeeps(server, c, action);
    case Write => WriterKeeps(server, c, action);
    case WriteFails => WriterKeeps(server, c, action);
    case WriterSeesDone => WriterKeeps(server, c, action);
    case _ => QuietKeeps(server, c, Step(server, c, action));
  }

  lemma {:induction false} WireInvAlways<W>(server: Server<W>, start: W, actions: seq<Action<W>>)
    ensures WireInv(server, Run(server, start, actions))
  {
    if actions == [] {
      assert Frames([]) == [];
    } else {
      WireInvAlways(server, start, actions[..|actions| - 1]);
      StepKeeps(server, Run(server, start, actions[..|actions| - 1]), actions[|actions| - 1]);
    }
  }

  /** Requests and pushes are those that came from outside. */
  lemma {:induction false} AsMade<W>(server: Server<W>, start: W, actions: seq<Action<W>>)
    ensures forall data :: data in Run(server, start, actions).read ==> Read(data) in actions
    ensures forall sent :: sent in Run(server, start, actions).accepted && sent.origin.Pushed? ==>
              Push(sent.origin.msgId, sent.origin.body) in actions
  {
    if actions != [] {
      var n := |actions| - 1;
      AsMade(server, start, actions[..n]);
      assert actions == actions[..n] + [actions[n]];
    }
  }

  /** The frame on the wire is the pushed message, or the reply that Dispatch gave to its request. */
  ghost predicate Delivers<W>(server: Server<W>, c: Wire<W>, actions: seq<Action<W>>, msg: Frame.Message, origin: Origin) {
    match origin
    case Pushed(msgId, body) => msg == Frame.Message(msgId, 0, body) && Push(msgId, body) in actions
    case Answer(position) =>
      && LiveAt(c.read, position) && Read(c.read[position]) in actions
      && msg.seqNo == Frame.Decode(c.read[position]).value.seqNo != 0
      && exists reply :: AnsweredBy(server, c, position, reply) && Carries(server, msg, reply)
  }

  lemma WrittenDelivers<W>(server: Server<W>, c: Wire<W>, actions: seq<Action<W>>, n: nat)
    requires WireInv(server, c) && n < |c.written|
    requires forall data :: data in c.read ==> Read(data) in actions
    requires forall sent :: sent in c.accepted && sent.origin.Pushed? ==> Push(sent.origin.msgId, sent.origin.body) in actions
    ensures c.written <= Frames(c.accepted) && Frame.Decode(c.written[n]).Ok?
    ensures Delivers(server, c, actions, Frame.Decode(c.written[n]).value, c.accepted[n].origin)
    ensures c.accepted[n].origin.Pushed? <==> Frame.Decode(c.written[n]).value.seqNo == 0
  {
    assert c.written <= Frames(c.accepted);
    assert c.written[n] == c.accepted[n].frame && c.accepted[n] in c.accepted;
    assert WellSent(server, c, c.accepted[n]);
  }

  /**
   End to end, for every run: what was written is a prefix of what the buffer accepted, the buffer never holds more than
   256 frames and its end comes once; every frame on the wire decodes, either to a message that was pushed, with seq 0,
   or to message id, seq and body of the reply that Dispatch gave to a non-fatal request in the state it was read in;
   and answers come in the order their requests were read, none twice.
   */
  lemma WhatReachesTheWire<W>(server: Server<W>, start: W, actions: seq<Action<W>>, n: nat)
    requires n < |Run(server, start, actions).written|
    ensures var c := Run(server, start, actions);
            && c.written <= Frames(c.accepted)
            && |c.link.buffer| <= 256 && c.link.doneCloses <= 1
            && Frame.Decode(c.written[n]).Ok?
            && Delivers(server, c, actions, Frame.Decode(c.written[n]).value, c.accepted[n].origin)
            && (c.accepted[n].origin.Pushed? <==> Frame.Decode(c.written[n]).value.seqNo == 0)
            && AnswersInOrder(c.accepted)
  {
    WireInvAlways(server, start, actions);
    AsMade(server, start, actions);
    WrittenDelivers(server, Run(server, start, actions), actions, n);
  }

  /** As long as nobody else touches the shared state, requests are dispatched one after another as the stream says. */
  lemma {:induction false} StateIsServed<W>(server: Server<W>, start: W, actions: seq<Action<W>>)
    requires forall action :: action in actions ==> !action.Elsewhere?
    ensures var c := Run(server, start, actions);
            var served := Serve(server.handlers, server.chain, start, c.read);
            c.state == served.state && (served.stopped ==> c.reader.ReaderGone?)
  {
    if actions != [] {
      var n := |actions| - 1;
      assert actions[n] in actions;
      StateIsServed(server, start, actions[..n]);
      var c := Run(server, start, actions[..n]);
      if actions[n].Read? && c.reader.Reading? {
        ServeExtends(server.handlers, server.chain, start, c.read, actions[n].data);
      }
    }
  }

  // ---------------------------------------------------------------------------------------------------------------
  // What does get through
  // ---------------------------------------------------------------------------------------------------------------

  predicate HasRoom(link: Link) {
    !link.closed && |link.buffer| < 256
  }

  /** An open connection with room takes every push and every answer that fits a frame; otherwise they are dropped. */
  lemma WhatIsAccepted<W>(server: Server<W>, c: Wire<W>, msgId: uint16, body: Bytes)
    ensures var after := Step(server, c, Push(msgId, body));
            if HasRoom(c.link) && 10 + |body| <= 65536 then
              && |after.accepted| == |c.accepted| + 1 && after.accepted[..|c.accepted|] == c.accepted
              && Frame.Decode(after.accepted[|c.accepted|].frame) == Ok(Frame.Message(msgId, 0, body))
            else after == c
    ensures c.reader.Replying? && c.read != [] ==>
              var after := Step(server, c, Action.Reply);
              var reply := c.reader.reply;
              var size := match reply.content case Response(body) => |body| case Failure(code, text) => |server.errorBody(code, text)|;
              && after.reader.Reading?
              && if HasRoom(c.link) && 10 + size <= 65536 then
                   && |after.accepted| == |c.accepted| + 1 && after.accepted[..|c.accepted|] == c.accepted
                   && Frame.Decode(after.accepted[|c.accepted|].frame).Ok?
                   && Carries(server, Frame.Decode(after.accepted[|c.accepted|].frame).value, reply)
                 else after.accepted == c.accepted && after.link == c.link
  {
    Frame.DecodeInvertsEncode(Frame.Message(msgId, 0, body));
    if c.reader.Replying? {
      var reply := c.reader.reply;
      Frame.DecodeInvertsEncode(Frame.Message(reply.msgId, reply.seqNo, BodyOf(server, reply.content)));
    }
  }

  /** The ways a connection ends, and the effect of each: all stop it, but the writer may see the stop of somebody else. */
  lemma WhatEnds<W>(server: Server<W>, c: Wire<W>, state: W)
    ensures Step(server, c, Stop) == c.(link := Stopped(c.link))
    ensures c.reader.Reading? ==> Step(server, c, ReaderFails) == c.(reader := ReaderGone, link := Stopped(c.link))
    ensures c.writer.Writing? ==> Step(server, c, WriteFails) == c.(writer := WriterGone, link := Stopped(c.link))
    ensures c.writer.Waiting? && c.link.closed ==> Step(server, c, WriterSeesDone) == c.(writer := WriterGone)
    ensures Step(server, c, Elsewhere(state)) == c.(state := state)
  {
  }

  /** There are no other ways. */
  lemma EndsOnlySo<W>(server: Server<W>, c: Wire<W>, action: Action<W>)
    ensures var after := Step(server, c, action);
            && (after.link.closed && !c.link.closed ==>
                  action.Stop? || (action.ReaderFails? && c.reader.Reading?) || (action.WriteFails? && c.writer.Writing?))
            && (after.writer.WriterGone? && !c.writer.WriterGone? ==>
                  || (action.WriteFails? && c.writer.Writing?)
                  || (action.WriterSeesDone? && c.writer.Waiting? && c.link.closed))
            && (after.reader.ReaderGone? && !c.reader.ReaderGone? ==>
                  c.reader.Reading? && (action.ReaderFails? || (action.Read? && FatalFrame(action.data))))
  {
    if action.Read? {
      DispatchAnswers(server.handlers, server.chain, c.state, action.data);
    }
  }

  /** A waiting reader dispatches the next frame, and goes on, answers, or ends, as Dispatch says. */
  lemma WhatIsRead<W>(server: Server<W>, c: Wire<W>, data: Bytes)
    requires c.reader.Reading?
    ensures var after := Step(server, c, Read(data));
            var outcome := Dispatch(server.handlers, server.chain, c.state, data);
            && after.read == c.read + [data] && after.states == c.states + [c.state]
            && after.state == outcome.state
            && (after.reader.ReaderGone? <==> FatalFrame(data))
            && (!FatalFrame(data) ==>
                  if outcome.reply.Some? then after.reader == Replying(outcome.reply.value) else after.reader.Reading?)
            && after.link == c.link && after.accepted == c.accepted && after.written == c.written && after.writer == c.writer
  {
    DispatchAnswers(server.handlers, server.chain, c.state, data);
  }

  function RunFrom<W>(server: Server<W>, c: Wire<W>, actions: seq<Action<W>>): Wire<W>
    decreases |actions|
  {
    if actions == [] then c else RunFrom(server, Step(server, c, actions[0]), actions[1..])
  }

  /** A writer that meets no failure gets everything that was accepted onto the socket. */
  lemma {:induction false} EverythingIsWritten<W>(server: Server<W>, c: Wire<W>) returns (actions: seq<Action<W>>)
    requires Fifo(c) && !c.writer.WriterGone?
    ensures forall action :: action in actions ==> action.Take? || action.Write?
    ensures RunFrom(server, c, actions).written == Frames(c.accepted)
    decreases |c.link.buffer|, if c.writer.Writing? then 1 else 0
  {
    if c.writer.Writing? {
      var rest := EverythingIsWritten(server, WriterStep(server, c, Write));
      actions := [Write] + rest;
    } else if c.link.buffer != [] {
      var rest := EverythingIsWritten(server, WriterStep(server, c, Take));
      actions := [Take] + rest;
    } else {
      actions := [];
    }
  }

  /** The writer's next step, which loses nothing. */
  function WriterStep<W>(server: Server<W>, c: Wire<W>, action: Action<W>): (after: Wire<W>)
    requires Fifo(c) && !c.writer.WriterGone? && (action.Take? || action.Write?)
    ensures Fifo(after) && after == Step(server, c, action) && after.accepted == c.accepted && !after.writer.WriterGone?
  {
    WriterKeepsFifo(server, c, action);
    Step(server, c, action)
  }
}
