/**
 What becomes of an insert that meets a row of its own key, with or without the player lock: the transaction is rolled
 back, the row is read again, and the caller is answered from it.
 */
module SqlFallback {
  import opened Common
  import opened Settlement
  import opened Storage
  import opened SqlSettlement
  import opened SqlMachine
  import opened SettlementAnswers

  /** The pc of a transaction after its next statement, whatever the others did before. */
  function Then(setup: Setup, actions: seq<Action>, id: TxId): Pc
    requires id in Run(setup, actions).txs
  {
    AdvanceKeepsTx(setup, Run(setup, actions), id);
    RunThen(setup, actions, Advance(id));
    Run(setup, actions + [Advance(id)]).txs[id].pc
  }

  lemma RunThen(setup: Setup, actions: seq<Action>, action: Action)
    ensures Run(setup, actions + [action]) == Step(setup, Run(setup, actions), action)
  {
    assert (actions + [action])[..|actions|] == actions;
  }

  lemma AdvanceKeepsTx(setup: Setup, s: System, id: TxId)
    requires id in s.txs
    ensures id in Step(setup, s, Advance(id)).txs
  {
  }

  /**
   In every reachable state: an insert that finds its row taken does not write but rolls back; the rollback gives up the
   lock and leaves the tables alone; the row is then there to be read, and reading it answers with the stored response,
   marked as a duplicate of this request, or says that it is malformed.
   */
  lemma TakenKeyIsReplayed(setup: Setup, actions: seq<Action>, id: TxId)
    requires id in Run(setup, actions).txs && !Blocked(setup, Run(setup, actions), id)
    ensures var s := Run(setup, actions);
            var tx := s.txs[id];
            && (tx.pc.Inserting? && Key(tx.player, tx.req.runId) in s.db.settlements
                && setup.marshaller.putResponse(tx.pc.response).Some? ==>
                  Then(setup, actions, id) == RollingBackDuplicate)
            && (tx.pc.RollingBackDuplicate? ==>
                  && Then(setup, actions, id) == Rereading
                  && Run(setup, actions + [Advance(id)]).db == s.db
                  && !(tx.player in Run(setup, actions + [Advance(id)]).locks
                       && Run(setup, actions + [Advance(id)]).locks[tx.player] == id))
            && (tx.pc.Rereading? ==>
                  && Key(tx.player, tx.req.runId) in s.db.settlements
                  && Then(setup, actions, id).Done?
                  && Replays(setup.marshaller, s.db.settlements[Key(tx.player, tx.req.runId)], tx.req,
                             Then(setup, actions, id).result))
  {
    ExactlyOnceAlways(setup, actions);
    RunThen(setup, actions, Advance(id));
    assert RowInv(setup, Run(setup, actions), id);
  }
}
