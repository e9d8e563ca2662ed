/**
 The order of the log that explains an interleaving of locked settlements: it is the order in which the transactions
 took effect, each at one instant between its beginning and its end.
 */
module SqlOrder {
  import opened Common
  import opened Settlement
  import opened Storage
  import opened SqlSettlement
  import opened SqlMachine
  import opened SqlSerial

  /** The log only grows, and what has ended does not change any more. */
  ghost predicate Grown(s: System, t: System) {
    && s.log <= t.log
    && s.nextId <= t.nextId
    && (forall id :: id in s.txs && id < s.nextId ==>
          id in t.txs && (s.txs[id].pc.Done? ==> t.txs[id] == s.txs[id]))
  }

  lemma AdvanceGrows(setup: Setup, s: System, id: TxId)
    requires id in s.txs && !s.txs[id].pc.Done? && !Blocked(setup, s, id)
    ensures Grown(s, Advanced(setup, s, id))
  {
  }

  lemma StepGrows(setup: Setup, s: System, action: Action)
    ensures Grown(s, Step(setup, s, action))
  {
    if action.Advance? && Step(setup, s, action) != s {
      AdvanceGrows(setup, s, action.id);
    }
  }

  lemma {:induction false} RunGrows(setup: Setup, actions: seq<Action>, more: seq<Action>)
    ensures Grown(Run(setup, actions), Run(setup, actions + more))
  {
    if more == [] {
      assert actions + more == actions;
    } else {
      var n := |more| - 1;
      RunGrows(setup, actions, more[..n]);
      assert (actions + more)[..|actions| + n] == actions + more[..n];
      StepGrows(setup, Run(setup, actions + more[..n]), more[n]);
    }
  }

  /** This step ended the transaction of this entry, with the whole effect the entry has in the serial run. */
  ghost predicate TakesEffect(setup: Setup, s: System, action: Action, after: System, entry: Entry) {
    && (action == Advance(entry.id) || action == CommitUnacknowledged(entry.id))
    && entry.id in s.txs && !s.txs[entry.id].pc.Done? && IsCall(after, entry)
    && after.log == s.log + [entry]
    && (after.db, entry.answer) == SettleEntry(setup, s.db, entry)
  }

  /** A step either leaves tables and log alone or is the effect of one logged entry. */
  ghost predicate OneEffect(setup: Setup, s: System, action: Action, after: System) {
    || (after.log == s.log && after.db == s.db)
    || (after.log != [] && TakesEffect(setup, s, action, after, after.log[|after.log| - 1]))
  }

  lemma CommitTakesEffect(setup: Setup, s: System, id: TxId, action: Action, told: Result<Response, Failure>)
    requires id in s.txs && s.txs[id].pc.Committing? && Current(setup, s.db, s.txs[id])
    requires told == Ok(s.txs[id].pc.response) || told == Err(DatabaseError)
    requires action == Advance(id) || action == CommitUnacknowledged(id)
    ensures OneEffect(setup, s, action, Commit(s, id, told))
  {
    var entry := Entry(id, s.txs[id].player, s.txs[id].req, Ok(s.txs[id].pc.response));
    assert TakesEffect(setup, s, action, Commit(s, id, told), entry);
  }

  lemma AnswerTakesEffect(setup: Setup, s: System, id: TxId, answer: Result<Response, Failure>)
    requires id in s.txs && !s.txs[id].pc.Done?
    requires (s.db, answer) == SettleDb(s.db, setup.marshaller, setup.policy, s.txs[id].player, s.txs[id].req)
    ensures OneEffect(setup, s, Advance(id), Finish(s, id, answer, answer))
  {
    var entry := Entry(id, s.txs[id].player, s.txs[id].req, answer);
    assert TakesEffect(setup, s, Advance(id), Finish(s, id, answer, answer), entry);
  }

  lemma AdvanceHasOneEffect(setup: Setup, s: System, id: TxId)
    requires id in s.txs && Current(setup, s.db, s.txs[id]) && !s.txs[id].pc.Done? && !Blocked(setup, s, id)
    ensures OneEffect(setup, s, Advance(id), Advanced(setup, s, id))
  {
    match s.txs[id].pc
    case Committing(response, _) => CommitTakesEffect(setup, s, id, Advance(id), Ok(response));
    case ClosingReplay(answer) => AnswerTakesEffect(setup, s, id, answer);
    case RollingBack(failure) => AnswerTakesEffect(setup, s, id, Err(failure));
    case _ =>
  }

  /**
   The log is in commit order: in every reachable state a step that ends no transaction changes neither tables nor log,
   and one that does appends that transaction and makes, all at once, the change it makes in the serial run.
   */
  lemma EffectsInOrder(setup: Setup, actions: seq<Action>, action: Action)
    requires setup.locking
    ensures var s := Run(setup, actions);
            OneEffect(setup, s, action, Run(setup, actions + [action]))
  {
    SerialAlways(setup, actions);
    assert (actions + [action])[..|actions|] == actions;
    var s := Run(setup, actions);
    if Step(setup, s, action) != s {
      match action
      case CommitUnacknowledged(id) =>
        assert Current(setup, s.db, s.txs[id]);
        CommitTakesEffect(setup, s, id, action, Err(DatabaseError));
      case Advance(id) =>
        assert Current(setup, s.db, s.txs[id]);
        AdvanceHasOneEffect(setup, s, id);
      case _ =>
    }
  }

  /** An entry logged later belongs to a call that had not ended yet. */
  lemma {:induction false} LoggedLaterEndsLater(setup: Setup, actions: seq<Action>, more: seq<Action>, i: nat)
    requires setup.locking && |Run(setup, actions).log| <= i < |Run(setup, actions + more).log|
    ensures var id := Run(setup, actions + more).log[i].id;
            id in Run(setup, actions).txs && id < Run(setup, actions).nextId ==> !Run(setup, actions).txs[id].pc.Done?
  {
    assert more == [] ==> actions + more == actions;
    var n := |more| - 1;
    assert (actions + more[..n]) + [more[n]] == actions + more;
    EffectsInOrder(setup, actions + more[..n], more[n]);
    if i < |Run(setup, actions + more[..n]).log| {
      LoggedLaterEndsLater(setup, actions, more[..n], i);
    } else {
      RunGrows(setup, actions, more[..n]);
    }
  }

  /**
   The log respects real time: a call that had ended before another one began comes before it in every later log. So the
   serial run is one in which every call happens at an instant between its beginning and its answer.
   */
  lemma RealTimeOrder(setup: Setup, actions: seq<Action>, more: seq<Action>, i: nat, j: nat)
    requires setup.locking
    requires i < |Run(setup, actions + more).log| && j < |Run(setup, actions + more).log|
    requires var (s, later) := (Run(setup, actions), Run(setup, actions + more));
             && later.log[i].id in s.txs && s.txs[later.log[i].id].pc.Done?
             && later.log[j].id !in s.txs
    ensures i < j
  {
    SerialAlways(setup, actions);
    RunGrows(setup, actions, more);
    if |Run(setup, actions).log| <= i {
      LoggedLaterEndsLater(setup, actions, more, i);
    }
    if j < |Run(setup, actions).log| {
      LoggedIsCall(Run(setup, actions), j);
    }
  }

  lemma LoggedIsCall(s: System, j: nat)
    requires LogCovers(s) && j < |s.log|
    ensures s.log[j].id in s.txs
  {
    assert s.log[j] in s.log;
  }
}
