/** Before- and after-hooks (internal/pipeline/pipeline.go) over an arbitrary state W that hooks and handlers share. */
module Pipeline {
  import opened Common

  type Bytes = seq<byte>

  /** Errors as the kernel tells them apart: a *BizError, or anything else. */
  datatype Error = Biz(code: int, msg: string) | Internal

  /** What a context carries besides the session: the message id, 0 before the kernel has set it. */
  datatype Context = Context(msgId: uint16)

  /** What a handler or an after-hook hands on: nil, a protobuf message, or a value that is neither. */
  datatype Output = Nil | Message(body: Bytes) | NotAMessage

  datatype BeforeResult<W> = BeforeResult(state: W, ctx: Context, input: Bytes, error: Option<Error>)
  datatype AfterResult<W> = AfterResult(state: W, output: Output, error: Option<Error>)

  type BeforeHook<!W> = (W, Context, Bytes) -> BeforeResult<W>
  type AfterHook<!W> = (W, Output, Option<Error>) -> AfterResult<W>

  /** The hooks one after another, each given what the previous one returned, up to the first error. */
  function RunBefore<W>(hooks: seq<BeforeHook<W>>, state: W, ctx: Context, input: Bytes): BeforeResult<W> {
    if hooks == [] then BeforeResult(state, ctx, input, None)
    else
      var first := hooks[0](state, ctx, input);
      if first.error.Some? then first else RunBefore(hooks[1..], first.state, first.ctx, first.input)
  }

  function RunAfter<W>(hooks: seq<AfterHook<W>>, state: W, output: Output, error: Option<Error>): AfterResult<W> {
    if hooks == [] then AfterResult(state, output, error)
    else
      var first := hooks[0](state, output, error);
      RunAfter(hooks[1..], first.state, first.output, first.error)
  }

  class Hooks<!W> {
    var before: seq<BeforeHook<W>>
    var after: seq<AfterHook<W>>

    constructor ()
      ensures before == [] && after == []
    {
      before, after := [], [];
    }

    method AddBefore(hook: BeforeHook<W>)
      modifies this`before
      ensures before == old(before) + [hook]
    {
      before := before + [hook];
    }

    method ExecuteBefore(state: W, ctx: Context, input: Bytes) returns (result: BeforeResult<W>)
      ensures result == RunBefore(before, state, ctx, input)
    {
      result := BeforeResult(state, ctx, input, None);
      for i := 0 to |before|
        invariant result.error == None
        invariant RunBefore(before, state, ctx, input) == RunBefore(before[i..], result.state, result.ctx, result.input)
      {
        assert before[i..][0] == before[i] && before[i..][1..] == before[i + 1..];
        result := before[i](result.state, result.ctx, result.input);
        if result.error.Some? {
          return;
        }
      }
    }

    method ExecuteAfter(state: W, output: Output, error: Option<Error>) returns (result: AfterResult<W>)
      ensures result == RunAfter(after, state, output, error)
    {
      result := AfterResult(state, output, error);
      for i := 0 to |after|
        invariant RunAfter(after, state, output, error)
                  == RunAfter(after[i..], result.state, result.output, result.error)
      {
        assert after[i..][0] == after[i] && after[i..][1..] == after[i + 1..];
        result := after[i](result.state, result.output, result.error);
      }
    }
  }

  /** Chains compose: a longer chain continues where the shorter one stopped, unless that one failed. */
  lemma {:induction false} RunBeforeAppends<W>(
      hooks: seq<BeforeHook<W>>, more: seq<BeforeHook<W>>, state: W, ctx: Context, input: Bytes)
    ensures var first := RunBefore(hooks, state, ctx, input);
            RunBefore(hooks + more, state, ctx, input)
            == if first.error.Some? then first else RunBefore(more, first.state, first.ctx, first.input)
  {
    if hooks == [] {
      assert hooks + more == more;
    } else {
      var first := hooks[0](state, ctx, input);
      RunBeforeAppends(hooks[1..], more, first.state, first.ctx, first.input);
      assert (hooks + more)[1..] == hooks[1..] + more;
    }
  }

  /** One hook alone: what it returns is what the chain returns. With RunBeforeAppends this determines every chain. */
  lemma OneBeforeHook<W>(hook: BeforeHook<W>, state: W, ctx: Context, input: Bytes)
    ensures RunBefore([], state, ctx, input) == BeforeResult(state, ctx, input, None)
    ensures RunBefore([hook], state, ctx, input) == hook(state, ctx, input)
  {
    var first := hook(state, ctx, input);
    assert [hook][1..] == [];
    assert first.error == None ==> RunBefore([], first.state, first.ctx, first.input) == first;
  }

  lemma OneAfterHook<W>(hook: AfterHook<W>, state: W, output: Output, error: Option<Error>)
    ensures RunAfter([], state, output, error) == AfterResult(state, output, error)
    ensures RunAfter([hook], state, output, error) == hook(state, output, error)
  {
    var first := hook(state, output, error);
    assert [hook][1..] == [];
    assert RunAfter([], first.state, first.output, first.error) == first;
  }

  /** After-hooks all run, each on what the one before it left, errors included. */
  lemma {:induction false} RunAfterAppends<W>(
      hooks: seq<AfterHook<W>>, more: seq<AfterHook<W>>, state: W, output: Output, error: Option<Error>)
    ensures var first := RunAfter(hooks, state, output, error);
            RunAfter(hooks + more, state, output, error) == RunAfter(more, first.state, first.output, first.error)
  {
    if hooks == [] {
      assert hooks + more == more;
    } else {
      var first := hooks[0](state, output, error);
      RunAfterAppends(hooks[1..], more, first.state, first.output, first.error);
      assert (hooks + more)[1..] == hooks[1..] + more;
    }
  }
}
