/** Message dispatch (internal/kernel/kernel.go): decode, before-hooks, handler, after-hooks, at most one reply. */
module Kernel {
  import opened Common
  import opened Pipeline
  import Frame

  const MSG_ERROR: uint16 := 9999
  const ERR_INTERNAL := 10001
  const ERR_INVALID_PARAM := 10002

  datatype Content = Response(body: Bytes) | Failure(code: int32, message: string)

  /** One frame handed to the session as an answer. */
  datatype Reply = Reply(seqNo: uint32, msgId: uint16, content: Content)

  /** A registered handler; `accepts` tells which bodies unmarshal into its request type. */
  datatype HandlerEntry<!W> = HandlerEntry(
    respId: uint16,
    accepts: Bytes -> bool,
    handle: (W, Context, Bytes) -> AfterResult<W>,
    authFree: bool)

  datatype Chain<!W> = Chain(before: seq<BeforeHook<W>>, after: seq<AfterHook<W>>)

  /** `fatal` is the ErrFatalProtocol return that makes the reader stop. */
  datatype Outcome<W> = Outcome(state: W, reply: Option<Reply>, fatal: bool)

  // ---------------------------------------------------------------------------------------------------------------
  // Dispatch
  // ---------------------------------------------------------------------------------------------------------------

  /** sendError: only a direct BizError keeps its code and text. */
  function ErrorReply(seqNo: uint32, error: Error): Reply {
    match error
    case Biz(code, msg) => Reply(seqNo, MSG_ERROR, Failure(Wrap32(code), msg))
    case Internal => Reply(seqNo, MSG_ERROR, Failure(ERR_INTERNAL, "internal server error"))
  }

  function Finish(seqNo: uint32, respId: uint16, output: Output, error: Option<Error>): Option<Reply> {
    if error.Some? then Some(ErrorReply(seqNo, error.value))
    else match output
      case Nil => None
      case Message(body) => Some(Reply(seqNo, respId, Response(body)))
      case NotAMessage => Some(ErrorReply(seqNo, Biz(ERR_INTERNAL, "invalid handler response")))
  }

  /** The handler sees the context of the hooks but the request as it was decoded. */
  function Handle<W>(entry: HandlerEntry<W>, chain: Chain<W>, state: W, msg: Frame.Message): Outcome<W> {
    var checked := RunBefore(chain.before, state, Context(msg.msgId), msg.body);
    if checked.error.Some? then
      Outcome(checked.state, Finish(msg.seqNo, entry.respId, Nil, checked.error), false)
    else
      var answered := entry.handle(checked.state, checked.ctx, msg.body);
      var final := RunAfter(chain.after, answered.state, answered.output, answered.error);
      Outcome(final.state, Finish(msg.seqNo, entry.respId, final.output, final.error), false)
  }

  function Dispatch<W>(handlers: map<uint16, HandlerEntry<W>>, chain: Chain<W>, state: W, data: Bytes): Outcome<W> {
    var decoded := Frame.Decode(data);
    if decoded.Err? || decoded.value.seqNo == 0 then Outcome(state, None, true)
    else
      var msg := decoded.value;
      if msg.msgId !in handlers then
        Outcome(state, Some(ErrorReply(msg.seqNo, Biz(ERR_INVALID_PARAM, "unsupported message type"))), false)
      else if !handlers[msg.msgId].accepts(msg.body) then
        Outcome(state, Some(ErrorReply(msg.seqNo, Biz(ERR_INVALID_PARAM, "invalid request payload"))), false)
      else Handle(handlers[msg.msgId], chain, state, msg)
  }

  // ---------------------------------------------------------------------------------------------------------------
  // The kernel object
  // ---------------------------------------------------------------------------------------------------------------

  /** A line of the canonical route table. */
  datatype Route = Route(responseId: uint16, requestType: string, responseType: string)

  /** What reflection finds out about a value passed to Register. */
  datatype Signature = NotAHandler | Handler(requestType: string, responseType: string)

  datatype Panic = DuplicateHandler | MismatchedRoute | BadSignature | MismatchedTypes

  class Kernel<!W> {
    const routes: map<uint16, Route>
    const hooks: Hooks<W>
    var handlers: map<uint16, HandlerEntry<W>>

    /** Every handler answers with the response id its route prescribes. */
    ghost predicate Canonical()
      reads this
    {
      forall id :: id in handlers ==> id in routes && handlers[id].respId == routes[id].responseId
    }

    constructor (routes: map<uint16, Route>, hooks: Hooks<W>)
      ensures this.routes == routes && this.hooks == hooks && handlers == map[] && Canonical()
    {
      this.routes, this.hooks, handlers := routes, hooks, map[];
    }

    /** Fails closed at startup: a panic leaves the handlers as they were. */
    method Register(reqId: uint16, signature: Signature, entry: HandlerEntry<W>) returns (panic: Option<Panic>)
      requires Canonical()
      modifies this`handlers
      ensures Canonical()
      ensures panic == None <==>
              && reqId !in old(handlers) && reqId in routes && entry.respId == routes[reqId].responseId
              && signature == Handler(routes[reqId].requestType, routes[reqId].responseType)
      ensures handlers == if panic == None then old(handlers)[reqId := entry] else old(handlers)
    {
      if reqId in handlers {
        return Some(DuplicateHandler);
      }
      if reqId !in routes || routes[reqId].responseId != entry.respId {
        return Some(MismatchedRoute);
      }
      if signature.NotAHandler? {
        return Some(BadSignature);
      }
      if signature.requestType != routes[reqId].requestType || signature.responseType != routes[reqId].responseType {
        return Some(MismatchedTypes);
      }
      handlers := handlers[reqId := entry];
      return None;
    }

    method DispatchFrame(state: W, data: array<byte>) returns (outcome: Outcome<W>)
      ensures outcome == Dispatch(handlers, Chain(hooks.before, hooks.after), state, data[..])
    {
      var decoded := Frame.DecodeFrame(data);
      if decoded.Err? {
        return Outcome(state, None, true);
      }
      var frame := decoded.value;
      if frame.seqNo == 0 {
        return Outcome(state, None, true);
      }
      if frame.msgId !in handlers {
        return Outcome(state, Some(ErrorReply(frame.seqNo, Biz(ERR_INVALID_PARAM, "unsupported message type"))), false);
      }
      var entry := handlers[frame.msgId];
      if !entry.accepts(frame.body) {
        return Outcome(state, Some(ErrorReply(frame.seqNo, Biz(ERR_INVALID_PARAM, "invalid request payload"))), false);
      }
      var checked := hooks.ExecuteBefore(state, Context(frame.msgId), frame.body);
      if checked.error.Some? {
        return Outcome(checked.state, Finish(frame.seqNo, entry.respId, Nil, checked.error), false);
      }
      var answered := entry.handle(checked.state, checked.ctx, frame.body);
      var final := hooks.ExecuteAfter(answered.state, answered.output, answered.error);
      return Outcome(final.state, Finish(frame.seqNo, entry.respId, final.output, final.error), false);
    }
  }

  // ---------------------------------------------------------------------------------------------------------------
  // Single frames
  // ---------------------------------------------------------------------------------------------------------------

  /** Frames the reader stops at. */
  predicate FatalFrame(data: Bytes) {
    Frame.Decode(data).Err? || Frame.Decode(data).value.seqNo == 0
  }

  /** The reply answers this request with the registered response id, or with the error id and a failure. */
  predicate Answers<W>(handlers: map<uint16, HandlerEntry<W>>, reply: Reply, data: Bytes) {
    && !FatalFrame(data)
    && var msg := Frame.Decode(data).value;
    && reply.seqNo == msg.seqNo != 0
    && (if reply.content.Failure? then reply.msgId == MSG_ERROR
        else msg.msgId in handlers && reply.msgId == handlers[msg.msgId].respId)
  }

  /** A fatal frame touches nothing and is not answered; any other gets at most one reply, to itself. */
  lemma DispatchAnswers<W>(handlers: map<uint16, HandlerEntry<W>>, chain: Chain<W>, state: W, data: Bytes)
    ensures var outcome := Dispatch(handlers, chain, state, data);
            && (outcome.fatal <==> FatalFrame(data))
            && (outcome.fatal ==> outcome == Outcome(state, None, true))
            && (outcome.reply.Some? ==> Answers(handlers, outcome.reply.value, data))
  {
  }

  /** Dispatch gets as far as calling the handler. */
  predicate HandlerRuns<W>(handlers: map<uint16, HandlerEntry<W>>, chain: Chain<W>, state: W, data: Bytes) {
    && !FatalFrame(data)
    && var msg := Frame.Decode(data).value;
    && msg.msgId in handlers && handlers[msg.msgId].accepts(msg.body)
    && RunBefore(chain.before, state, Context(msg.msgId), msg.body).error == None
  }

  /**
   A request that passes the hooks is answered with the handler's last word: a response only if the after-hooks left
   one without an error, silence only if they left nothing, and otherwise the business code or the internal one.
   */
  lemma HandledReply<W>(handlers: map<uint16, HandlerEntry<W>>, chain: Chain<W>, state: W, data: Bytes)
    requires !FatalFrame(data) && Frame.Decode(data).value.msgId in handlers
    requires handlers[Frame.Decode(data).value.msgId].accepts(Frame.Decode(data).value.body)
    requires var msg := Frame.Decode(data).value;
             RunBefore(chain.before, state, Context(msg.msgId), msg.body).error == None
    ensures var msg := Frame.Decode(data).value;
            var checked := RunBefore(chain.before, state, Context(msg.msgId), msg.body);
            var answered := handlers[msg.msgId].handle(checked.state, checked.ctx, msg.body);
            var final := RunAfter(chain.after, answered.state, answered.output, answered.error);
            var outcome := Dispatch(handlers, chain, state, data);
            && outcome.state == final.state
            && (outcome.reply == None <==> final.error == None && final.output == Nil)
            && (forall body :: outcome.reply.Some? && outcome.reply.value.content == Response(body)
                  <==> final.error == None && final.output == Message(body))
            && (forall code: int32, text: string :: final.error == Some(Biz(code, text)) ==>
                  outcome.reply.Some? && outcome.reply.value.content == Failure(code, text))
            && (final.error == Some(Internal) ==>
                  outcome.reply == Some(Reply(msg.seqNo, 9999, Failure(10001, "internal server error"))))
            && (final.error == None && final.output == NotAMessage ==>
                  outcome.reply == Some(Reply(msg.seqNo, 9999, Failure(10001, "invalid handler response"))))
  {
  }

  /**
   A request nobody can handle: of a message id that is not registered, or with a body its handler does not accept. It
   touches nothing and gets exactly the error reply that says which.
   */
  lemma UnhandledReply<W>(handlers: map<uint16, HandlerEntry<W>>, chain: Chain<W>, state: W, data: Bytes)
    requires !FatalFrame(data)
    ensures var msg := Frame.Decode(data).value;
            && (msg.msgId !in handlers ==>
                  Dispatch(handlers, chain, state, data)
                  == Outcome(state, Some(Reply(msg.seqNo, 9999, Failure(10002, "unsupported message type"))), false))
            && (msg.msgId in handlers && !handlers[msg.msgId].accepts(msg.body) ==>
                  Dispatch(handlers, chain, state, data)
                  == Outcome(state, Some(Reply(msg.seqNo, 9999, Failure(10002, "invalid request payload"))), false))
  {
  }

  /** Silence is a handler's last word: a frame that is not fatal goes unanswered only if handler and after-hooks left nothing. */
  lemma SilenceIff<W>(handlers: map<uint16, HandlerEntry<W>>, chain: Chain<W>, state: W, data: Bytes)
    requires !FatalFrame(data)
    ensures Dispatch(handlers, chain, state, data).reply == None <==>
            && HandlerRuns(handlers, chain, state, data)
            && var msg := Frame.Decode(data).value;
            var checked := RunBefore(chain.before, state, Context(msg.msgId), msg.body);
            var answered := handlers[msg.msgId].handle(checked.state, checked.ctx, msg.body);
            var final := RunAfter(chain.after, answered.state, answered.output, answered.error);
            final.error == None && final.output == Nil
  {
    if HandlerRuns(handlers, chain, state, data) {
      HandledReply(handlers, chain, state, data);
    }
  }

  /**
   Once a before-hook fails, nothing after it runs: the outcome is the same whatever hooks follow it and whatever the
   handler and the after-hooks would do, and it is exactly one error reply.
   */
  lemma FailedHookCutsChain<W>(
      handlers: map<uint16, HandlerEntry<W>>, before: seq<BeforeHook<W>>, later: seq<BeforeHook<W>>,
      after: seq<AfterHook<W>>, state: W, data: Bytes)
    requires !FatalFrame(data) && Frame.Decode(data).value.msgId in handlers
    requires handlers[Frame.Decode(data).value.msgId].accepts(Frame.Decode(data).value.body)
    requires RunBefore(before, state, Context(Frame.Decode(data).value.msgId), Frame.Decode(data).value.body).error.Some?
    ensures var msg := Frame.Decode(data).value;
            var failed := RunBefore(before, state, Context(msg.msgId), msg.body);
            Dispatch(handlers, Chain(before + later, after), state, data)
            == Outcome(failed.state, Some(ErrorReply(msg.seqNo, failed.error.value)), false)
  {
    var msg := Frame.Decode(data).value;
    RunBeforeAppends(before, later, state, Context(msg.msgId), msg.body);
  }

  // ---------------------------------------------------------------------------------------------------------------
  // When the handler runs, and on what
  // ---------------------------------------------------------------------------------------------------------------

  /** The same route with other code behind it. */
  function Rewired<W>(
      entry: HandlerEntry<W>, handle: (W, Context, Bytes) -> AfterResult<W>): HandlerEntry<W>
  {
    HandlerEntry(entry.respId, entry.accepts, handle, entry.authFree)
  }

  /** A handler that Dispatch does not get to has no part in the outcome, whatever it would do. */
  lemma IdleHandlerHasNoPart<W>(
      handlers: map<uint16, HandlerEntry<W>>, chain: Chain<W>, state: W, data: Bytes, msgId: uint16,
      handle: (W, Context, Bytes) -> AfterResult<W>)
    requires msgId in handlers && !HandlerRuns(handlers, chain, state, data)
    ensures Dispatch(handlers[msgId := Rewired(handlers[msgId], handle)], chain, state, data)
            == Dispatch(handlers, chain, state, data)
  {
  }

  /** Replaces the input and lets everything through: what a hook that sanitises requests would do. */
  function Rewriting<W>(input: Bytes): BeforeHook<W> {
    (state: W, ctx: Context, _: Bytes) => BeforeResult(state, ctx, input, None)
  }

  /** Whatever the hooks make of the request is discarded: only their state, context and error reach the handler. */
  lemma RewritesAreDiscarded<W>(
      handlers: map<uint16, HandlerEntry<W>>, before: seq<BeforeHook<W>>, input: Bytes, after: seq<AfterHook<W>>,
      state: W, data: Bytes)
    ensures Dispatch(handlers, Chain(before + [Rewriting(input)], after), state, data)
            == Dispatch(handlers, Chain(before, after), state, data)
  {
    if !FatalFrame(data) {
      var msg := Frame.Decode(data).value;
      RunBeforeAppends(before, [Rewriting(input)], state, Context(msg.msgId), msg.body);
      var first := RunBefore(before, state, Context(msg.msgId), msg.body);
      assert [Rewriting<W>(input)][1..] == [];
      assert first.error == None ==>
          RunBefore([Rewriting(input)], first.state, first.ctx, first.input)
          == BeforeResult(first.state, first.ctx, input, None);
    }
  }

  /** A handler that answers with the request it was given. */
  function Echo<W>(entry: HandlerEntry<W>): HandlerEntry<W> {
    Rewired(entry, (state: W, ctx: Context, body: Bytes) => AfterResult(state, Message(body), None))
  }

  /**
   The handler is given the request as decoded, and so what the hooks made of it if and only if they left it alone: an
   echoing handler answers with the decoded body.
   */
  lemma HandlerGetsRewriteIff<W>(
      handlers: map<uint16, HandlerEntry<W>>, before: seq<BeforeHook<W>>, state: W, data: Bytes)
    requires HandlerRuns(handlers, Chain(before, []), state, data)
    ensures var msg := Frame.Decode(data).value;
            var reply := Dispatch(handlers[msg.msgId := Echo(handlers[msg.msgId])], Chain(before, []), state, data).reply;
            var rewritten := RunBefore(before, state, Context(msg.msgId), msg.body).input;
            && reply == Some(Reply(msg.seqNo, handlers[msg.msgId].respId, Response(msg.body)))
            && (reply.value.content == Response(rewritten) <==> rewritten == msg.body)
  {
  }

  // ---------------------------------------------------------------------------------------------------------------
  // A connection's stream of frames
  // ---------------------------------------------------------------------------------------------------------------

  datatype Served<W> = Served(state: W, replies: seq<Reply>, stopped: bool)

  /** The reader's loop over the frames that arrive: it dispatches each one and stops at the first fatal one. */
  function Serve<W>(handlers: map<uint16, HandlerEntry<W>>, chain: Chain<W>, state: W, frames: seq<Bytes>): Served<W> {
    if frames == [] then Served(state, [], false)
    else
      var n := |frames| - 1;
      var earlier := Serve(handlers, chain, state, frames[..n]);
      if earlier.stopped then earlier
      else
        var outcome := Dispatch(handlers, chain, earlier.state, frames[n]);
        Served(outcome.state,
               if outcome.reply.Some? then earlier.replies + [outcome.reply.value] else earlier.replies,
               outcome.fatal)
  }

  /** The frames before the first fatal one. */
  function Live(frames: seq<Bytes>): seq<Bytes> {
    if frames == [] || FatalFrame(frames[0]) then [] else [frames[0]] + Live(frames[1..])
  }

  /** `positions` tells which live frame each reply answers: in order, none twice. */
  ghost predicate InOrder<W>(
      handlers: map<uint16, HandlerEntry<W>>, replies: seq<Reply>, live: seq<Bytes>, positions: seq<nat>)
  {
    && |positions| == |replies|
    && (forall i, j :: 0 <= i < j < |positions| ==> positions[i] < positions[j])
    && forall i :: 0 <= i < |positions| ==> positions[i] < |live| && Answers(handlers, replies[i], live[positions[i]])
  }

  lemma {:induction false} LiveExtends(frames: seq<Bytes>, data: Bytes)
    ensures Live(frames + [data]) ==
            if Live(frames) == frames && !FatalFrame(data) then frames + [data] else Live(frames)
    ensures |Live(frames)| <= |frames|
  {
    if frames == [] {
      assert frames + [data] == [data];
    } else {
      LiveExtends(frames[1..], data);
      assert (frames + [data])[1..] == frames[1..] + [data];
    }
  }

  /** One more frame on a stream: it changes nothing after a fatal one, and is dispatched otherwise. */
  lemma ServeExtends<W>(
      handlers: map<uint16, HandlerEntry<W>>, chain: Chain<W>, state: W, frames: seq<Bytes>, data: Bytes)
    ensures var earlier := Serve(handlers, chain, state, frames);
            var outcome := Dispatch(handlers, chain, earlier.state, data);
            Serve(handlers, chain, state, frames + [data]) ==
            if earlier.stopped then earlier
            else Served(outcome.state,
                        earlier.replies + if outcome.reply.Some? then [outcome.reply.value] else [],
                        outcome.fatal)
  {
    assert (frames + [data])[..|frames|] == frames;
  }

  /** The answers so far still answer the same frames of a longer stream. */
  lemma InOrderOnLonger<W>(
      handlers: map<uint16, HandlerEntry<W>>, replies: seq<Reply>, live: seq<Bytes>, longer: seq<Bytes>, positions: seq<nat>)
    requires InOrder(handlers, replies, live, positions) && live <= longer
    ensures InOrder(handlers, replies, longer, positions)
  {
  }

  /** An answer to the latest frame comes after all others. */
  lemma InOrderExtends<W>(
      handlers: map<uint16, HandlerEntry<W>>, replies: seq<Reply>, live: seq<Bytes>, positions: seq<nat>,
      reply: Reply, data: Bytes)
    requires InOrder(handlers, replies, live, positions) && Answers(handlers, reply, data)
    ensures InOrder(handlers, replies + [reply], live + [data], positions + [|live|])
  {
    InOrderOnLonger(handlers, replies, live, live + [data], positions);
  }

  /** Over every stream: the replies answer live frames only, in request order, at most one each. */
  lemma {:induction false} StreamAnswers<W>(
      handlers: map<uint16, HandlerEntry<W>>, chain: Chain<W>, state: W, frames: seq<Bytes>)
    returns (positions: seq<nat>)
    ensures InOrder(handlers, Serve(handlers, chain, state, frames).replies, Live(frames), positions)
    ensures !Serve(handlers, chain, state, frames).stopped <==> Live(frames) == frames
  {
    positions := [];
    if frames != [] {
      var earlier, data := frames[..|frames| - 1], frames[|frames| - 1];
      positions := StreamAnswers(handlers, chain, state, earlier);
      assert earlier + [data] == frames;
      var served := Serve(handlers, chain, state, earlier);
      ServeExtends(handlers, chain, state, earlier, data);
      LiveExtends(earlier, data);
      DispatchAnswers(handlers, chain, served.state, data);
      var reply := Dispatch(handlers, chain, served.state, data).reply;
      if !served.stopped && reply.Some? {
        InOrderExtends(handlers, served.replies, earlier, positions, reply.value, data);
        positions := positions + [|earlier|];
      } else {
        InOrderOnLonger(handlers, served.replies, Live(earlier), Live(frames), positions);
      }
    }
  }

  lemma LiveIsPrefix(frames: seq<Bytes>)
    ensures Live(frames) <= frames
  {
    if frames != [] && !FatalFrame(frames[0]) {
      LiveIsPrefix(frames[1..]);
      assert frames == [frames[0]] + frames[1..];
    }
  }

  /** What Dispatch answers to the frame at this position, in the state that serving the earlier ones left. */
  function AnswerAt<W>(
      handlers: map<uint16, HandlerEntry<W>>, chain: Chain<W>, state: W, frames: seq<Bytes>, p: nat): Option<Reply>
    requires p < |frames|
  {
    Dispatch(handlers, chain, Serve(handlers, chain, state, frames[..p]).state, frames[p]).reply
  }

  /** The answers to the live frames. */
  function LiveAnswers<W>(
      handlers: map<uint16, HandlerEntry<W>>, chain: Chain<W>, state: W, frames: seq<Bytes>): (answers: seq<Option<Reply>>)
    ensures |answers| == |Live(frames)|
  {
    LiveIsPrefix(frames);
    seq(|Live(frames)|, p requires 0 <= p < |Live(frames)| => AnswerAt(handlers, chain, state, frames, p))
  }

  function Somes<T>(options: seq<Option<T>>): seq<T> {
    if options == [] then []
    else
      var last := options[|options| - 1];
      Somes(options[..|options| - 1]) + if last.Some? then [last.value] else []
  }

  lemma AnswerStays<W>(
      handlers: map<uint16, HandlerEntry<W>>, chain: Chain<W>, state: W, frames: seq<Bytes>, data: Bytes, p: nat)
    requires p <= |frames|
    ensures AnswerAt(handlers, chain, state, frames + [data], p) ==
            if p < |frames| then AnswerAt(handlers, chain, state, frames, p)
            else Dispatch(handlers, chain, Serve(handlers, chain, state, frames).state, data).reply
  {
    assert (frames + [data])[..p] == frames[..p];
    assert frames[..|frames|] == frames;
  }

  lemma LiveAnswersExtend<W>(
      handlers: map<uint16, HandlerEntry<W>>, chain: Chain<W>, state: W, frames: seq<Bytes>, data: Bytes)
    ensures LiveAnswers(handlers, chain, state, frames + [data]) ==
            LiveAnswers(handlers, chain, state, frames)
            + if Live(frames) == frames && !FatalFrame(data)
              then [Dispatch(handlers, chain, Serve(handlers, chain, state, frames).state, data).reply] else []
  {
    var before := LiveAnswers(handlers, chain, state, frames);
    var after := LiveAnswers(handlers, chain, state, frames + [data]);
    LiveExtends(frames, data);
    LiveIsPrefix(frames);
    LiveIsPrefix(frames + [data]);
    forall p | 0 <= p < |before| ensures after[p] == before[p] {
      AnswerStays(handlers, chain, state, frames, data, p);
    }
    if |before| < |after| {
      AnswerStays(handlers, chain, state, frames, data, |frames|);
    }
  }

  lemma SomesExtends<T>(options: seq<Option<T>>, last: Option<T>)
    ensures Somes(options + [last]) == Somes(options) + if last.Some? then [last.value] else []
    ensures Somes(options + []) == Somes(options)
  {
    assert (options + [last])[..|options|] == options;
    assert options + [] == options;
  }

  lemma RepliesExtend<W>(
      handlers: map<uint16, HandlerEntry<W>>, chain: Chain<W>, state: W, frames: seq<Bytes>, data: Bytes)
    requires Serve(handlers, chain, state, frames).replies == Somes(LiveAnswers(handlers, chain, state, frames))
    requires !Serve(handlers, chain, state, frames).stopped <==> Live(frames) == frames
    ensures Serve(handlers, chain, state, frames + [data]).replies
            == Somes(LiveAnswers(handlers, chain, state, frames + [data]))
    ensures !Serve(handlers, chain, state, frames + [data]).stopped <==> Live(frames + [data]) == frames + [data]
  {
    var served := Serve(handlers, chain, state, frames);
    ServeExtends(handlers, chain, state, frames, data);
    LiveExtends(frames, data);
    LiveAnswersExtend(handlers, chain, state, frames, data);
    DispatchAnswers(handlers, chain, served.state, data);
    SomesExtends(LiveAnswers(handlers, chain, state, frames), Dispatch(handlers, chain, served.state, data).reply);
  }

  /** Over every stream the replies are exactly Dispatch's answers to the live frames, and nothing is left out. */
  lemma {:induction false} RepliesAreAnswers<W>(
      handlers: map<uint16, HandlerEntry<W>>, chain: Chain<W>, state: W, frames: seq<Bytes>)
    ensures Serve(handlers, chain, state, frames).replies == Somes(LiveAnswers(handlers, chain, state, frames))
    ensures !Serve(handlers, chain, state, frames).stopped <==> Live(frames) == frames
  {
    if frames != [] {
      var n := |frames| - 1;
      RepliesAreAnswers(handlers, chain, state, frames[..n]);
      RepliesExtend(handlers, chain, state, frames[..n], frames[n]);
      assert frames[..n] + [frames[n]] == frames;
    }
  }

  /** After a fatal frame nothing is dispatched any more. */
  lemma {:induction false} NothingAfterFatal<W>(
      handlers: map<uint16, HandlerEntry<W>>, chain: Chain<W>, state: W, frames: seq<Bytes>, more: seq<Bytes>)
    requires Serve(handlers, chain, state, frames).stopped
    ensures Serve(handlers, chain, state, frames + more) == Serve(handlers, chain, state, frames)
  {
    if more == [] {
      assert frames + more == frames;
    } else {
      NothingAfterFatal(handlers, chain, state, frames, more[..|more| - 1]);
      assert (frames + more)[..|frames + more| - 1] == frames + more[..|more| - 1];
    }
  }
}
