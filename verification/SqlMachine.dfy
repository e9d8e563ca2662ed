/**
 Any number of concurrent settlement transactions, interleaved statement by statement.

 The database is assumed to keep `FOR UPDATE` on the player row as an exclusive lock until commit or rollback, to answer
 a read after the lock from everything committed before, to make an insert wait for another transaction's uncommitted
 insert of the same key, and to keep (player_id, run_id) unique. With `Setup.locking` off the player lock is not taken.
 */
module SqlMachine {
  import opened Common
  import opened Settlement
  import opened Storage
  import opened SqlSettlement

  type TxId = nat

  datatype Setup = Setup(marshaller: Marshaller, policy: Policy, locking: bool, initial: Db)

  /** The next statement of a transaction, with what it has computed or written but not committed. */
  datatype Pc =
    | Locking
    | LookingUp
    | ReadingArchive
    | Computing(archive: Archive)
    | WritingStats(response: Response)
    | WritingScore(response: Response, stats: Stats)
    | SavingArchive(response: Response, stats: Stats, score: ScoreRow)
    | Inserting(response: Response, stats: Stats, score: ScoreRow, archiveData: Blob)
    | Committing(response: Response, writes: Writes)
    | ClosingReplay(answer: Result<Response, Failure>)
    | RollingBack(failure: Failure)
    | RollingBackDuplicate
    | Rereading
    | Done(result: Result<Response, Failure>)

  datatype Tx = Tx(player: int64, req: Request, pc: Pc)

  /** A finished call, in the order the calls took effect. */
  datatype Entry = Entry(id: TxId, player: int64, req: Request, answer: Result<Response, Failure>)

  /** `winners` remembers which transaction committed each settlement row; `log` is the order of effects. */
  datatype System = System(
    nextId: TxId,
    db: Db,
    locks: map<int64, TxId>,
    txs: map<TxId, Tx>,
    winners: map<Key, TxId>,
    log: seq<Entry>)

  datatype Action =
    | Begin(player: int64, req: Request)
    | Advance(id: TxId)
    | Abort(id: TxId)
    | CommitUnacknowledged(id: TxId)

  function Start(setup: Setup): System {
    System(0, setup.initial, map[], map[], map[], [])
  }

  // ---------------------------------------------------------------------------------------------------------------
  // Steps
  // ---------------------------------------------------------------------------------------------------------------

  function Goto(s: System, id: TxId, pc: Pc): System
    requires id in s.txs
  {
    s.(txs := s.txs[id := s.txs[id].(pc := pc)])
  }

  /** Gives up the player lock if this transaction has it. */
  function Unlock(s: System, id: TxId): System
    requires id in s.txs
  {
    var player := s.txs[id].player;
    if player in s.locks && s.locks[player] == id then s.(locks := s.locks - {player}) else s
  }

  /** Ends the transaction and answers the caller; the log tells what the call amounted to. */
  function Finish(s: System, id: TxId, answer: Result<Response, Failure>, told: Result<Response, Failure>): System
    requires id in s.txs
  {
    var closed := Goto(Unlock(s, id), id, Done(told));
    closed.(log := s.log + [Entry(id, s.txs[id].player, s.txs[id].req, answer)])
  }

  function TxKey(tx: Tx): Key {
    KeyOf(tx.player, tx.req)
  }

  /** Another transaction has inserted the same key and not yet ended: an insert waits for it. */
  predicate InsertBlocked(s: System, id: TxId)
    requires id in s.txs
  {
    exists other :: other in s.txs && other != id && s.txs[other].pc.Committing? && TxKey(s.txs[other]) == TxKey(s.txs[id])
  }

  /** The commit of a transaction whose writes are complete. */
  function Commit(s: System, id: TxId, told: Result<Response, Failure>): System
    requires id in s.txs && s.txs[id].pc.Committing?
  {
    var tx := s.txs[id];
    Finish(s.(db := Committed(s.db, tx.player, tx.req, tx.pc.writes), winners := s.winners[TxKey(tx) := id]),
           id, Ok(tx.pc.response), told)
  }

  /** The pc after a statement that neither waits nor ends the transaction. */
  function NextPc(setup: Setup, db: Db, tx: Tx): Pc {
    var m := setup.marshaller;
    match tx.pc
    case Locking => if tx.player in db.players then LookingUp else RollingBack(PlayerNotFound)
    case LookingUp =>
      if TxKey(tx) in db.settlements then ClosingReplay(ReplayStored(m, db.settlements[TxKey(tx)], tx.req))
      else ReadingArchive
    case ReadingArchive =>
      if tx.player !in db.archives then Computing(FRESH_ARCHIVE)
      else (match m.getArchive(db.archives[tx.player])
            case None => RollingBack(MalformedArchive)
            case Some(archive) => Computing(archive))
    case Computing(archive) =>
      (match Settled(archive, tx.req, setup.policy)
       case Err(error) => RollingBack(Overflow(error))
       case Ok(response) => WritingStats(response))
    case WritingStats(response) =>
      (match StatsAfter(Lookup(db.stats, tx.player), tx.req, response.rewardGold, response.rewardExp)
       case Err(failure) => RollingBack(failure)
       case Ok(stats) => WritingScore(response, stats))
    case WritingScore(response, stats) =>
      (match ScoreOf(tx.req)
       case None => RollingBack(InvalidMetadata)
       case Some(score) => SavingArchive(response, stats, score))
    case SavingArchive(response, stats, score) =>
      if response.archive.None? then RollingBack(EncodeFailed)
      else (match m.putArchive(response.archive.value)
            case None => RollingBack(EncodeFailed)
            case Some(data) => Inserting(response, stats, score, data))
    case Inserting(response, stats, score, archiveData) =>
      (match m.putResponse(response)
       case None => RollingBack(EncodeFailed)
       case Some(data) =>
         if TxKey(tx) in db.settlements then RollingBackDuplicate
         else Committing(response, Writes(stats, score, archiveData, data)))
    case RollingBackDuplicate => Rereading
    case _ => tx.pc
  }

  /** The transaction's next statement has to wait for another one to end. */
  predicate Blocked(setup: Setup, s: System, id: TxId)
    requires id in s.txs
  {
    var tx := s.txs[id];
    || (setup.locking && tx.pc.Locking? && tx.player in s.locks)
    || (tx.pc.Inserting? && InsertBlocked(s, id))
  }

  /** One statement of one transaction that is not blocked. */
  function Advanced(setup: Setup, s: System, id: TxId): System
    requires id in s.txs && !s.txs[id].pc.Done? && !Blocked(setup, s, id)
  {
    var tx := s.txs[id];
    match tx.pc
    case Committing(response, writes) => Commit(s, id, Ok(response))
    case ClosingReplay(answer) => Finish(s, id, answer, answer)
    case RollingBack(failure) => Finish(s, id, Err(failure), Err(failure))
    case RollingBackDuplicate => Goto(Unlock(s, id), id, Rereading)
    case Rereading =>
      var answer := if TxKey(tx) in s.db.settlements
                    then ReplayStored(setup.marshaller, s.db.settlements[TxKey(tx)], tx.req)
                    else Err(DatabaseError);
      Finish(s, id, answer, answer)
    case Locking =>
      var locked := if setup.locking && tx.player in s.db.players then s.(locks := s.locks[tx.player := id]) else s;
      Goto(locked, id, NextPc(setup, s.db, tx))
    case _ => Goto(s, id, NextPc(setup, s.db, tx))
  }

  /** Every action is possible in every state; one that does not apply changes nothing. */
  function Step(setup: Setup, s: System, action: Action): System {
    match action
    case Begin(player, req) => s.(txs := s.txs[s.nextId := Tx(player, req, Locking)], nextId := s.nextId + 1)
    case Advance(id) =>
      if id in s.txs && !s.txs[id].pc.Done? && !Blocked(setup, s, id) then Advanced(setup, s, id) else s
    case Abort(id) =>
      if id in s.txs && !s.txs[id].pc.Done? then Goto(Unlock(s, id), id, Done(Err(DatabaseError))) else s
    case CommitUnacknowledged(id) =>
      if id in s.txs && s.txs[id].pc.Committing? then Commit(s, id, Err(DatabaseError)) else s
  }

  /** The system after any sequence of actions. */
  function Run(setup: Setup, actions: seq<Action>): System {
    if actions == [] then Start(setup)
    else Step(setup, Run(setup, actions[..|actions| - 1]), actions[|actions| - 1])
  }

  /**
   The two ways a call in progress can fail: the transaction ends without a trace and without its lock, or its commit takes
   its whole effect and only the answer is lost.
   */
  lemma Failures(setup: Setup, s: System, id: TxId)
    requires id in s.txs && !s.txs[id].pc.Done?
    ensures var lost := Step(setup, s, Abort(id));
            && id in lost.txs && lost.txs[id] == s.txs[id].(pc := Done(Err(DatabaseError)))
            && lost.db == s.db && lost.log == s.log && lost.winners == s.winners
            && !(s.txs[id].player in lost.locks && lost.locks[s.txs[id].player] == id)
    ensures s.txs[id].pc.Committing? ==>
              var told, untold := Step(setup, s, Advance(id)), Step(setup, s, CommitUnacknowledged(id));
              && id in untold.txs && untold.txs[id].pc == Done(Err(DatabaseError))
              && untold.db == told.db && untold.log == told.log && untold.locks == told.locks
  {
  }

  /** The transactions are the earlier ones, with the same player and request. */
  ghost predicate SameCalls(s: System, after: System) {
    forall id :: id in after.txs ==>
      id in s.txs && after.txs[id].player == s.txs[id].player && after.txs[id].req == s.txs[id].req
  }

  lemma AdvanceKeepsCalls(setup: Setup, s: System, id: TxId)
    requires id in s.txs && !s.txs[id].pc.Done? && !Blocked(setup, s, id)
    ensures SameCalls(s, Advanced(setup, s, id))
  {
  }

  lemma StepKeepsCalls(setup: Setup, s: System, action: Action)
    ensures !action.Begin? ==> SameCalls(s, Step(setup, s, action))
  {
    if action.Advance? && Step(setup, s, action) != s {
      AdvanceKeepsCalls(setup, s, action.id);
    }
  }

  /** Every transaction is a call somebody made. */
  lemma {:induction false} CallsAsMade(setup: Setup, actions: seq<Action>)
    ensures forall id :: id in Run(setup, actions).txs ==>
              Begin(Run(setup, actions).txs[id].player, Run(setup, actions).txs[id].req) in actions
  {
    if actions != [] {
      var n := |actions| - 1;
      CallsAsMade(setup, actions[..n]);
      StepKeepsCalls(setup, Run(setup, actions[..n]), actions[n]);
      assert actions == actions[..n] + [actions[n]];
    }
  }

  // ---------------------------------------------------------------------------------------------------------------
  // Exactly once, with or without the player lock
  // ---------------------------------------------------------------------------------------------------------------

  /** A run is under way to being written by this transaction: nobody else can write its row first. */
  ghost predicate PendingInsert(setup: Setup, s: System, id: TxId)
    requires id in s.txs && s.txs[id].pc.Committing?
  {
    var tx := s.txs[id];
    && TxKey(tx) !in s.db.settlements
    && !InsertBlocked(s, id)
    && setup.marshaller.putResponse(tx.pc.response) == Some(tx.pc.writes.response)
  }

  /** The call was told that its run has just been settled. */
  predicate ToldFirst(s: System, id: TxId) {
    id in s.txs && s.txs[id].pc.Done? && s.txs[id].pc.result.Ok? && !s.txs[id].pc.result.value.duplicate
  }

  predicate ToldDuplicate(s: System, id: TxId) {
    id in s.txs && s.txs[id].pc.Done? && s.txs[id].pc.result.Ok? && s.txs[id].pc.result.value.duplicate
  }

  /** A response computed for this request, before it was stored. */
  predicate FirstResponse(tx: Tx, response: Response) {
    !response.duplicate && response.runId == tx.req.runId
  }

  /** What each transaction may say about the committed rows at its current statement. */
  ghost predicate RowInv(setup: Setup, s: System, id: TxId)
    requires id in s.txs
  {
    var tx := s.txs[id];
    var rows := s.db.settlements;
    match tx.pc
    case Committing(response, writes) => PendingInsert(setup, s, id) && FirstResponse(tx, response)
    case WritingStats(response) => FirstResponse(tx, response)
    case WritingScore(response, _) => FirstResponse(tx, response)
    case SavingArchive(response, _, _) => FirstResponse(tx, response)
    case Inserting(response, _, _, _) => FirstResponse(tx, response)
    case ClosingReplay(answer) =>
      TxKey(tx) in rows && answer == ReplayStored(setup.marshaller, rows[TxKey(tx)], tx.req)
    case RollingBackDuplicate => TxKey(tx) in rows
    case Rereading => TxKey(tx) in rows
    case Done(result) =>
      result.Ok? ==>
        && TxKey(tx) in rows
        && (!result.value.duplicate ==>
              && TxKey(tx) in s.winners && s.winners[TxKey(tx)] == id
              && setup.marshaller.putResponse(result.value) == Some(rows[TxKey(tx)])
              && result.value.runId == tx.req.runId)
        && (result.value.duplicate ==> ReplayStored(setup.marshaller, rows[TxKey(tx)], tx.req) == result)
    case _ => true
  }

  /** The initial rows are still there, and each other row has a winner. */
  ghost predicate WinnersRight(setup: Setup, s: System) {
    && s.winners.Keys == s.db.settlements.Keys - setup.initial.settlements.Keys
    && setup.initial.settlements.Keys <= s.db.settlements.Keys
    && (forall key :: key in setup.initial.settlements ==> s.db.settlements[key] == setup.initial.settlements[key])
  }

  ghost predicate ExactlyOnceInv(setup: Setup, s: System) {
    && (forall id :: id in s.txs ==> id < s.nextId)
    && (forall id :: id in s.txs ==> RowInv(setup, s, id))
    && WinnersRight(setup, s)
  }

  /** A transaction moves on without anything being committed. */
  lemma MoveKeepsRows(setup: Setup, s: System, moved: System, id: TxId, pc: Pc)
    requires ExactlyOnceInv(setup, s) && id in s.txs
    requires moved.db == s.db && moved.winners == s.winners && moved.txs == s.txs[id := s.txs[id].(pc := pc)]
    requires moved.nextId == s.nextId
    requires pc.Committing? ==> !InsertBlocked(s, id)
    requires RowInv(setup, moved, id)
    ensures ExactlyOnceInv(setup, moved)
  {
    forall other | other in moved.txs && other != id ensures RowInv(setup, moved, other) {
      assert RowInv(setup, s, other);
    }
  }

  lemma CommitKeepsOtherRow(setup: Setup, s: System, id: TxId, told: Result<Response, Failure>, other: TxId)
    requires ExactlyOnceInv(setup, s) && id in s.txs && s.txs[id].pc.Committing?
    requires other in s.txs && other != id
    ensures RowInv(setup, Commit(s, id, told), other)
  {
    assert RowInv(setup, s, id);
    assert RowInv(setup, s, other);
    var after := Commit(s, id, told);
    assert after.txs[other] == s.txs[other];
    if s.txs[other].pc.Committing? {
      assert TxKey(s.txs[other]) != TxKey(s.txs[id]);
      assert InsertBlocked(after, other) ==> InsertBlocked(s, other);
    }
  }

  lemma CommitKeepsOwnRow(setup: Setup, s: System, id: TxId, told: Result<Response, Failure>)
    requires id in s.txs && s.txs[id].pc.Committing? && RowInv(setup, s, id)
    requires told == Ok(s.txs[id].pc.response) || told.Err?
    ensures RowInv(setup, Commit(s, id, told), id)
  {
  }

  lemma CommitKeepsWinners(setup: Setup, s: System, id: TxId, told: Result<Response, Failure>)
    requires WinnersRight(setup, s) && id in s.txs && s.txs[id].pc.Committing?
    requires TxKey(s.txs[id]) !in s.db.settlements
    ensures WinnersRight(setup, Commit(s, id, told))
  {
  }

  lemma CommitKeepsRows(setup: Setup, s: System, id: TxId, told: Result<Response, Failure>)
    requires ExactlyOnceInv(setup, s) && id in s.txs && s.txs[id].pc.Committing?
    requires told == Ok(s.txs[id].pc.response) || told.Err?
    ensures ExactlyOnceInv(setup, Commit(s, id, told))
  {
    var after := Commit(s, id, told);
    assert RowInv(setup, s, id);
    CommitKeepsOwnRow(setup, s, id, told);
    CommitKeepsWinners(setup, s, id, told);
    forall other | other in after.txs && other != id ensures RowInv(setup, after, other) {
      CommitKeepsOtherRow(setup, s, id, told, other);
    }
  }

  lemma NextPcKeepsRows(setup: Setup, s: System, id: TxId)
    requires ExactlyOnceInv(setup, s) && id in s.txs && !Blocked(setup, s, id)
    requires !s.txs[id].pc.Committing? && !s.txs[id].pc.ClosingReplay? && !s.txs[id].pc.RollingBack?
    requires !s.txs[id].pc.Rereading? && !s.txs[id].pc.Done?
    ensures var pc := NextPc(setup, s.db, s.txs[id]);
            && (pc.Committing? ==> !InsertBlocked(s, id))
            && RowInv(setup, Goto(s, id, pc), id)
  {
    assert RowInv(setup, s, id);
    var pc := NextPc(setup, s.db, s.txs[id]);
    if pc.Committing? {
      assert !InsertBlocked(Goto(s, id, pc), id);
    }
  }

  lemma RowInvIgnores(setup: Setup, s: System, t: System, id: TxId)
    requires id in s.txs && t.txs == s.txs && t.db == s.db && t.winners == s.winners
    ensures RowInv(setup, s, id) <==> RowInv(setup, t, id)
  {
    assert InsertBlocked(s, id) <==> InsertBlocked(t, id);
  }

  lemma ExactlyOnceStep(setup: Setup, s: System, action: Action)
    requires ExactlyOnceInv(setup, s)
    ensures ExactlyOnceInv(setup, Step(setup, s, action))
  {
    var after := Step(setup, s, action);
    if after != s {
      match action
      case Begin(player, req) =>
        BeginKeepsRows(setup, s, player, req);
      case Abort(id) =>
        MoveKeepsRows(setup, s, after, id, Done(Err(DatabaseError)));
      case CommitUnacknowledged(id) =>
        CommitKeepsRows(setup, s, id, Err(DatabaseError));
      case Advance(id) =>
        AdvanceKeepsRows(setup, s, id);
    }
  }

  lemma AdvanceKeepsRows(setup: Setup, s: System, id: TxId)
    requires ExactlyOnceInv(setup, s) && id in s.txs && !s.txs[id].pc.Done? && !Blocked(setup, s, id)
    ensures ExactlyOnceInv(setup, Advanced(setup, s, id))
  {
    var tx := s.txs[id];
    if tx.pc.Committing? {
      CommitKeepsRows(setup, s, id, Ok(tx.pc.response));
    } else if tx.pc.ClosingReplay? || tx.pc.RollingBack? || tx.pc.Rereading? {
      AnswerKeepsRows(setup, s, id);
    } else {
      var after := Advanced(setup, s, id);
      var pc := NextPc(setup, s.db, tx);
      NextPcKeepsRows(setup, s, id);
      RowInvIgnores(setup, Goto(s, id, pc), after, id);
      MoveKeepsRows(setup, s, after, id, pc);
    }
  }

  lemma AnswerKeepsRows(setup: Setup, s: System, id: TxId)
    requires ExactlyOnceInv(setup, s) && id in s.txs && !Blocked(setup, s, id)
    requires s.txs[id].pc.ClosingReplay? || s.txs[id].pc.RollingBack? || s.txs[id].pc.Rereading?
    ensures ExactlyOnceInv(setup, Advanced(setup, s, id))
  {
    assert RowInv(setup, s, id);
    var after := Advanced(setup, s, id);
    MoveKeepsRows(setup, s, after, id, after.txs[id].pc);
  }

  lemma BeginKeepsRows(setup: Setup, s: System, player: int64, req: Request)
    requires ExactlyOnceInv(setup, s)
    ensures ExactlyOnceInv(setup, Step(setup, s, Begin(player, req)))
  {
    var after := Step(setup, s, Begin(player, req));
    forall id | id in s.txs ensures RowInv(setup, after, id) {
      assert RowInv(setup, s, id);
      assert InsertBlocked(after, id) ==> InsertBlocked(s, id);
    }
  }

  lemma {:induction false} ExactlyOnceAlways(setup: Setup, actions: seq<Action>)
    ensures ExactlyOnceInv(setup, Run(setup, actions))
  {
    if actions != [] {
      ExactlyOnceAlways(setup, actions[..|actions| - 1]);
      ExactlyOnceStep(setup, Run(setup, actions[..|actions| - 1]), actions[|actions| - 1]);
    }
  }

  /**
   Whatever the interleaving, and even without the player lock: a run is reported as newly settled to at most one call,
   never to one whose run had a row from the start, and every duplicate answer is the stored response.
   */
  lemma ExactlyOnce(setup: Setup, actions: seq<Action>, a: TxId, b: TxId)
    requires Lawful(setup.marshaller)
    requires var s := Run(setup, actions);
             a in s.txs && b in s.txs && TxKey(s.txs[a]) == TxKey(s.txs[b]) && ToldFirst(s, a)
    ensures var s := Run(setup, actions);
            var key := TxKey(s.txs[a]);
            && (ToldFirst(s, b) ==> a == b)
            && key !in setup.initial.settlements
            && key in s.db.settlements
            && setup.marshaller.getResponse(s.db.settlements[key]) == Some(s.txs[a].pc.result.value)
            && (ToldDuplicate(s, b) ==>
                  s.txs[b].pc.result == Ok(s.txs[a].pc.result.value.(duplicate := true)))
  {
    var s := Run(setup, actions);
    ExactlyOnceAlways(setup, actions);
    assert RowInv(setup, s, a) && RowInv(setup, s, b);
  }
}
