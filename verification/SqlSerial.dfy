/**
 With the player lock every interleaving of settlements is equivalent to running the finished calls one after another,
 nobody deadlocks, and the duplicate-key fallback is never taken.
 */
module SqlSerial {
  import opened Common
  import opened Settlement
  import opened Storage
  import opened SqlSettlement
  import opened SqlMachine

  // ---------------------------------------------------------------------------------------------------------------
  // The serial reference
  // ---------------------------------------------------------------------------------------------------------------

  /** One settlement on its own, as an entry of the log. */
  function SettleEntry(setup: Setup, db: Db, entry: Entry): (Db, Result<Response, Failure>) {
    SettleDb(db, setup.marshaller, setup.policy, entry.player, entry.req)
  }

  /** The tables after the logged calls ran one after another on the initial tables. */
  function SerialDb(setup: Setup, log: seq<Entry>): Db {
    if log == [] then setup.initial
    else SettleEntry(setup, SerialDb(setup, log[..|log| - 1]), log[|log| - 1]).0
  }

  /** Every logged answer is the one the call gets in that serial run. */
  predicate SerialAnswers(setup: Setup, log: seq<Entry>) {
    log == [] ||
    var earlier := log[..|log| - 1];
    SerialAnswers(setup, earlier)
    && log[|log| - 1].answer == SettleEntry(setup, SerialDb(setup, earlier), log[|log| - 1]).1
  }

  /** A call that ended without a database error is in the log with exactly the answer it gave. */
  ghost predicate Logged(s: System, id: TxId)
    requires id in s.txs && s.txs[id].pc.Done?
  {
    var tx := s.txs[id];
    tx.pc.result == Err(DatabaseError) || Entry(id, tx.player, tx.req, tx.pc.result) in s.log
  }

  /** The entry is one of the finished calls: its player, its request, and its answer unless that got lost. */
  ghost predicate IsCall(s: System, entry: Entry) {
    && entry.id in s.txs && s.txs[entry.id].pc.Done?
    && entry.player == s.txs[entry.id].player && entry.req == s.txs[entry.id].req
    && (s.txs[entry.id].pc.result == entry.answer || s.txs[entry.id].pc.result == Err(DatabaseError))
  }

  /** The call was answered as newly settled, whether or not its caller heard of it. */
  predicate Rewarding(entry: Entry) {
    entry.answer.Ok? && !entry.answer.value.duplicate
  }

  function EntryKey(entry: Entry): Key {
    KeyOf(entry.player, entry.req)
  }

  /** No run is rewarded twice, and none that had a row from the start. */
  ghost predicate RewardedOnce(setup: Setup, log: seq<Entry>) {
    && (forall i, j :: 0 <= i < j < |log| && Rewarding(log[i]) && Rewarding(log[j]) ==> EntryKey(log[i]) != EntryKey(log[j]))
    && (forall i :: 0 <= i < |log| && Rewarding(log[i]) ==> EntryKey(log[i]) !in setup.initial.settlements)
  }

  ghost predicate NoCallTwice(s: System) {
    forall i, j :: 0 <= i < j < |s.log| ==> s.log[i].id != s.log[j].id
  }

  // ---------------------------------------------------------------------------------------------------------------
  // The invariant
  // ---------------------------------------------------------------------------------------------------------------

  /** The statements executed while the player row is locked. */
  predicate Holds(pc: Pc) {
    !pc.Locking? && !pc.Rereading? && !pc.Done? && pc != RollingBack(PlayerNotFound)
  }

  ghost predicate LocksRight(s: System) {
    && (forall player :: player in s.locks ==>
          s.locks[player] in s.txs && s.txs[s.locks[player]].player == player && Holds(s.txs[s.locks[player]].pc))
    && (forall id :: id in s.txs && Holds(s.txs[id].pc) ==>
          s.txs[id].player in s.locks && s.locks[s.txs[id].player] == id)
  }

  /** What the transaction has in hand is what the committed tables still say. */
  ghost predicate Current(setup: Setup, db: Db, tx: Tx) {
    var m := setup.marshaller;
    var stored := Lookup(db.archives, tx.player);
    match tx.pc
    case Locking => true
    case LookingUp => tx.player in db.players
    case ReadingArchive => Fresh(db, tx)
    case Computing(archive) =>
      Fresh(db, tx) && (if stored.None? then archive == FRESH_ARCHIVE else m.getArchive(stored.value) == Some(archive))
    case WritingStats(response) => Accepts(setup, db, tx, response)
    case WritingScore(response, stats) =>
      && Accepts(setup, db, tx, response)
      && StatsAfter(Lookup(db.stats, tx.player), tx.req, response.rewardGold, response.rewardExp) == Ok(stats)
    case SavingArchive(response, stats, score) =>
      && Accepts(setup, db, tx, response)
      && StatsAfter(Lookup(db.stats, tx.player), tx.req, response.rewardGold, response.rewardExp) == Ok(stats)
      && ScoreOf(tx.req) == Some(score)
    case Inserting(response, stats, score, archiveData) =>
      && Accepts(setup, db, tx, response)
      && StatsAfter(Lookup(db.stats, tx.player), tx.req, response.rewardGold, response.rewardExp) == Ok(stats)
      && ScoreOf(tx.req) == Some(score)
      && m.putArchive(response.archive.value) == Some(archiveData)
    case Committing(response, writes) =>
      Accepts(setup, db, tx, response) && WritesFor(db, m, tx.player, tx.req, response) == Ok(writes)
    case ClosingReplay(answer) =>
      tx.player in db.players && TxKey(tx) in db.settlements
      && answer == ReplayStored(m, db.settlements[TxKey(tx)], tx.req)
    case RollingBack(failure) => SettleDb(db, m, setup.policy, tx.player, tx.req).1 == Err(failure)
    case RollingBackDuplicate => false
    case Rereading => false
    case Done(_) => true
  }

  ghost predicate Fresh(db: Db, tx: Tx) {
    tx.player in db.players && TxKey(tx) !in db.settlements
  }

  ghost predicate Accepts(setup: Setup, db: Db, tx: Tx, response: Response) {
    && Fresh(db, tx)
    && SettleStored(setup.marshaller, setup.policy, Lookup(db.archives, tx.player), tx.req) == Ok(response)
  }

  ghost predicate AllCurrent(setup: Setup, s: System) {
    forall id :: id in s.txs ==> Current(setup, s.db, s.txs[id])
  }

  /** The log has every finished call once. */
  ghost predicate LogCovers(s: System) {
    && (forall id :: id in s.txs ==> id < s.nextId)
    && (forall entry :: entry in s.log ==> IsCall(s, entry))
    && (forall id :: id in s.txs && s.txs[id].pc.Done? ==> Logged(s, id))
    && NoCallTwice(s)
  }

  /** The log explains the tables and all answers. */
  ghost predicate LogExplains(setup: Setup, db: Db, log: seq<Entry>) {
    db == SerialDb(setup, log) && SerialAnswers(setup, log)
  }

  ghost predicate SerialInv(setup: Setup, s: System) {
    LocksRight(s) && AllCurrent(setup, s) && LogCovers(s) && LogExplains(setup, s.db, s.log)
  }

  // ---------------------------------------------------------------------------------------------------------------
  // What a transaction has in hand stays current
  // ---------------------------------------------------------------------------------------------------------------

  /** Statements between the lock and the end, which read the tables and write only pending rows. */
  predicate Working(pc: Pc) {
    pc.LookingUp? || pc.ReadingArchive? || pc.Computing? || pc.WritingStats? || pc.WritingScore? || pc.SavingArchive?
    || pc.Inserting?
  }

  /** Such a statement finds what the serial settlement finds. */
  lemma NextPcStaysCurrent(setup: Setup, db: Db, tx: Tx)
    requires Current(setup, db, tx) && Working(tx.pc)
    ensures Current(setup, db, tx.(pc := NextPc(setup, db, tx))) && Holds(NextPc(setup, db, tx))
    ensures !NextPc(setup, db, tx).Done?
  {
  }

  /** What a transaction has in hand does not depend on other players' rows. */
  lemma CurrentIsLocal(setup: Setup, db: Db, other: Db, tx: Tx)
    requires Current(setup, db, tx)
    requires other.players == db.players
    requires Lookup(other.archives, tx.player) == Lookup(db.archives, tx.player)
    requires Lookup(other.stats, tx.player) == Lookup(db.stats, tx.player)
    requires Lookup(other.settlements, TxKey(tx)) == Lookup(db.settlements, TxKey(tx))
    ensures Current(setup, other, tx)
  {
  }

  lemma MoveKeepsCurrent(setup: Setup, s: System, after: System, id: TxId, tx: Tx)
    requires AllCurrent(setup, s) && Current(setup, s.db, tx)
    requires after.db == s.db && after.txs == s.txs[id := tx]
    ensures AllCurrent(setup, after)
  {
  }

  /** Only a waiting, failed or finished transaction can share its player with one that is about to commit. */
  lemma UnlockedStaysCurrent(setup: Setup, db: Db, after: Db, tx: Tx)
    requires Current(setup, db, tx) && !Holds(tx.pc) && tx.player in db.players
    ensures Current(setup, after, tx)
  {
    assert !tx.pc.RollingBack?;
  }

  lemma OtherStaysCurrent(setup: Setup, db: Db, tx: Tx, other: Tx)
    requires tx.pc.Committing? && Current(setup, db, tx) && Current(setup, db, other)
    requires other.player == tx.player ==> !Holds(other.pc)
    ensures Current(setup, Committed(db, tx.player, tx.req, tx.pc.writes), other)
  {
    var after := Committed(db, tx.player, tx.req, tx.pc.writes);
    if other.player == tx.player {
      UnlockedStaysCurrent(setup, db, after, other);
    } else {
      CurrentIsLocal(setup, db, after, other);
    }
  }

  lemma CommitKeepsCurrent(setup: Setup, s: System, after: System, id: TxId, told: Result<Response, Failure>)
    requires AllCurrent(setup, s) && id in s.txs && s.txs[id].pc.Committing?
    requires forall other :: other in s.txs && other != id && Holds(s.txs[other].pc) ==>
               s.txs[other].player != s.txs[id].player
    requires after.db == Committed(s.db, s.txs[id].player, s.txs[id].req, s.txs[id].pc.writes)
    requires after.txs == s.txs[id := s.txs[id].(pc := Done(told))]
    ensures AllCurrent(setup, after)
  {
    forall other | other in after.txs && other != id ensures Current(setup, after.db, after.txs[other]) {
      OtherStaysCurrent(setup, s.db, s.txs[id], s.txs[other]);
    }
  }

  // ---------------------------------------------------------------------------------------------------------------
  // Locks
  // ---------------------------------------------------------------------------------------------------------------

  lemma AcquireKeepsLocks(s: System, after: System, id: TxId)
    requires LocksRight(s) && id in s.txs && s.txs[id].pc.Locking? && s.txs[id].player !in s.locks
    requires after.locks == s.locks[s.txs[id].player := id]
    requires after.txs == s.txs[id := s.txs[id].(pc := LookingUp)]
    ensures LocksRight(after)
  {
  }

  lemma MoveKeepsLocks(s: System, after: System, id: TxId, pc: Pc)
    requires LocksRight(s) && id in s.txs && Holds(pc) == Holds(s.txs[id].pc)
    requires after.locks == s.locks && after.txs == s.txs[id := s.txs[id].(pc := pc)]
    ensures LocksRight(after)
  {
  }

  /** Ending a transaction gives its lock back and nobody else's. */
  lemma EndKeepsLocks(s: System, after: System, id: TxId, told: Result<Response, Failure>)
    requires LocksRight(s) && id in s.txs
    requires after.locks == Unlock(s, id).locks && after.txs == s.txs[id := s.txs[id].(pc := Done(told))]
    ensures LocksRight(after)
  {
  }

  // ---------------------------------------------------------------------------------------------------------------
  // The log
  // ---------------------------------------------------------------------------------------------------------------

  lemma LogExtends(setup: Setup, db: Db, log: seq<Entry>, entry: Entry, after: Db)
    requires LogExplains(setup, db, log)
    requires (after, entry.answer) == SettleEntry(setup, db, entry)
    ensures LogExplains(setup, after, log + [entry])
  {
    assert (log + [entry])[..|log|] == log;
  }

  lemma MoveKeepsLog(s: System, after: System, id: TxId, tx: Tx)
    requires LogCovers(s) && (id in s.txs ==> !s.txs[id].pc.Done?)
    requires after.log == s.log && after.txs == s.txs[id := tx]
    requires id < after.nextId && s.nextId <= after.nextId
    requires !tx.pc.Done? || tx.pc == Done(Err(DatabaseError))
    ensures LogCovers(after)
  {
    forall other | other in after.txs && after.txs[other].pc.Done? ensures Logged(after, other) {
      if other != id {
        assert Logged(s, other);
      }
    }
  }

  /** A call ends and is logged. */
  lemma FinishKeepsLog(s: System, after: System, id: TxId,
                       answer: Result<Response, Failure>, told: Result<Response, Failure>)
    requires LogCovers(s) && id in s.txs && !s.txs[id].pc.Done?
    requires told == answer || told == Err(DatabaseError)
    requires after.nextId == s.nextId && after.txs == s.txs[id := s.txs[id].(pc := Done(told))]
    requires after.log == s.log + [Entry(id, s.txs[id].player, s.txs[id].req, answer)]
    ensures LogCovers(after)
  {
    forall other | other in after.txs && after.txs[other].pc.Done? ensures Logged(after, other) {
      if other != id {
        assert Logged(s, other);
      }
    }
    assert forall entry :: entry in s.log ==> IsCall(s, entry) && entry.id != id;
  }

  // ---------------------------------------------------------------------------------------------------------------
  // Every step
  // ---------------------------------------------------------------------------------------------------------------

  lemma CommitKeepsSerial(setup: Setup, s: System, id: TxId, told: Result<Response, Failure>)
    requires SerialInv(setup, s) && id in s.txs && s.txs[id].pc.Committing?
    requires told == Ok(s.txs[id].pc.response) || told == Err(DatabaseError)
    ensures SerialInv(setup, Commit(s, id, told))
  {
    var after := Commit(s, id, told);
    assert Current(setup, s.db, s.txs[id]);
    assert Holds(s.txs[id].pc);
    CommitKeepsCurrent(setup, s, after, id, told);
    EndKeepsLocks(s, after, id, told);
    LogExtends(setup, s.db, s.log, after.log[|s.log|], after.db);
    FinishKeepsLog(s, after, id, Ok(s.txs[id].pc.response), told);
  }

  /** A transaction that writes nothing ends with the serial answer. */
  lemma AnswerKeepsSerial(setup: Setup, s: System, id: TxId, answer: Result<Response, Failure>)
    requires SerialInv(setup, s) && id in s.txs && !s.txs[id].pc.Done?
    requires (s.db, answer) == SettleDb(s.db, setup.marshaller, setup.policy, s.txs[id].player, s.txs[id].req)
    ensures SerialInv(setup, Finish(s, id, answer, answer))
  {
    var after := Finish(s, id, answer, answer);
    MoveKeepsCurrent(setup, s, after, id, s.txs[id].(pc := Done(answer)));
    EndKeepsLocks(s, after, id, answer);
    LogExtends(setup, s.db, s.log, after.log[|s.log|], after.db);
    FinishKeepsLog(s, after, id, answer, answer);
  }

  lemma StatementKeepsSerial(setup: Setup, s: System, id: TxId)
    requires SerialInv(setup, s) && id in s.txs && Working(s.txs[id].pc)
    ensures SerialInv(setup, Goto(s, id, NextPc(setup, s.db, s.txs[id])))
  {
    var tx := s.txs[id];
    var pc := NextPc(setup, s.db, tx);
    NextPcStaysCurrent(setup, s.db, tx);
    MoveKeepsCurrent(setup, s, Goto(s, id, pc), id, tx.(pc := pc));
    MoveKeepsLocks(s, Goto(s, id, pc), id, pc);
    MoveKeepsLog(s, Goto(s, id, pc), id, tx.(pc := pc));
  }

  lemma LockKeepsSerial(setup: Setup, s: System, id: TxId)
    requires setup.locking && SerialInv(setup, s) && id in s.txs && s.txs[id].pc.Locking? && !Blocked(setup, s, id)
    ensures SerialInv(setup, Advanced(setup, s, id))
  {
    var after := Advanced(setup, s, id);
    var tx := s.txs[id].(pc := NextPc(setup, s.db, s.txs[id]));
    MoveKeepsCurrent(setup, s, after, id, tx);
    MoveKeepsLog(s, after, id, tx);
    if tx.pc.LookingUp? {
      AcquireKeepsLocks(s, after, id);
    } else {
      MoveKeepsLocks(s, after, id, tx.pc);
    }
  }

  lemma AdvanceKeepsSerial(setup: Setup, s: System, id: TxId)
    requires setup.locking && SerialInv(setup, s) && id in s.txs && !s.txs[id].pc.Done? && !Blocked(setup, s, id)
    ensures SerialInv(setup, Advanced(setup, s, id))
  {
    assert Current(setup, s.db, s.txs[id]);
    match s.txs[id].pc
    case Locking => LockKeepsSerial(setup, s, id);
    case Committing(response, _) => CommitKeepsSerial(setup, s, id, Ok(response));
    case ClosingReplay(answer) => AnswerKeepsSerial(setup, s, id, answer);
    case RollingBack(failure) => AnswerKeepsSerial(setup, s, id, Err(failure));
    case _ => StatementKeepsSerial(setup, s, id);
  }

  lemma BeginKeepsSerial(setup: Setup, s: System, player: int64, req: Request)
    requires SerialInv(setup, s)
    ensures SerialInv(setup, Step(setup, s, Begin(player, req)))
  {
    var after := Step(setup, s, Begin(player, req));
    MoveKeepsCurrent(setup, s, after, s.nextId, Tx(player, req, Locking));
    MoveKeepsLog(s, after, s.nextId, Tx(player, req, Locking));
    assert LocksRight(after);
  }

  lemma AbortKeepsSerial(setup: Setup, s: System, id: TxId)
    requires SerialInv(setup, s) && id in s.txs && !s.txs[id].pc.Done?
    ensures SerialInv(setup, Step(setup, s, Abort(id)))
  {
    var after := Step(setup, s, Abort(id));
    var tx := s.txs[id].(pc := Done(Err(DatabaseError)));
    MoveKeepsCurrent(setup, s, after, id, tx);
    EndKeepsLocks(s, after, id, Err(DatabaseError));
    MoveKeepsLog(s, after, id, tx);
  }

  lemma SerialStep(setup: Setup, s: System, action: Action)
    requires setup.locking && SerialInv(setup, s)
    ensures SerialInv(setup, Step(setup, s, action))
  {
    if Step(setup, s, action) != s {
      match action
      case Begin(player, req) => BeginKeepsSerial(setup, s, player, req);
      case Abort(id) => AbortKeepsSerial(setup, s, id);
      case CommitUnacknowledged(id) => CommitKeepsSerial(setup, s, id, Err(DatabaseError));
      case Advance(id) => AdvanceKeepsSerial(setup, s, id);
    }
  }

  lemma {:induction false} SerialAlways(setup: Setup, actions: seq<Action>)
    requires setup.locking
    ensures SerialInv(setup, Run(setup, actions))
  {
    if actions == [] {
      assert Run(setup, actions) == Start(setup);
    } else {
      SerialAlways(setup, actions[..|actions| - 1]);
      SerialStep(setup, Run(setup, actions[..|actions| - 1]), actions[|actions| - 1]);
    }
  }

  // ---------------------------------------------------------------------------------------------------------------
  // Results
  // ---------------------------------------------------------------------------------------------------------------

  /** The rows after a serial run are the initial ones and one for each rewarded entry. */
  ghost predicate RowsOfLog(setup: Setup, log: seq<Entry>) {
    var rows := SerialDb(setup, log).settlements;
    && setup.initial.settlements.Keys <= rows.Keys
    && (forall i :: 0 <= i < |log| && Rewarding(log[i]) ==> EntryKey(log[i]) in rows)
    && (forall key :: key in rows && key !in setup.initial.settlements ==>
          exists i :: 0 <= i < |log| && Rewarding(log[i]) && EntryKey(log[i]) == key)
  }

  /** A settlement is rewarding exactly when it writes a row under a key that had none. */
  lemma RewardingIffNewRow(setup: Setup, db: Db, entry: Entry)
    requires entry.answer == SettleEntry(setup, db, entry).1
    ensures var after := SettleEntry(setup, db, entry).0;
            && (Rewarding(entry) ==> EntryKey(entry) !in db.settlements)
            && after.settlements.Keys == db.settlements.Keys + if Rewarding(entry) then {EntryKey(entry)} else {}
  {
  }

  lemma RewardsOnceExtends(setup: Setup, log: seq<Entry>, entry: Entry)
    requires RowsOfLog(setup, log) && RewardedOnce(setup, log)
    requires Rewarding(entry) ==> EntryKey(entry) !in SerialDb(setup, log).settlements
    ensures RewardedOnce(setup, log + [entry])
  {
  }

  lemma RowsOfLogExtends(setup: Setup, log: seq<Entry>, entry: Entry)
    requires RowsOfLog(setup, log)
    requires entry.answer == SettleEntry(setup, SerialDb(setup, log), entry).1
    ensures Rewarding(entry) ==> EntryKey(entry) !in SerialDb(setup, log).settlements
    ensures RowsOfLog(setup, log + [entry])
  {
    var longer := log + [entry];
    assert longer[..|log|] == log;
    var before, after := SerialDb(setup, log).settlements, SerialDb(setup, longer).settlements;
    RewardingIffNewRow(setup, SerialDb(setup, log), entry);
    assert after.Keys == before.Keys + if Rewarding(entry) then {EntryKey(entry)} else {};
    forall key | key in after && key !in setup.initial.settlements
      ensures exists i :: 0 <= i < |longer| && Rewarding(longer[i]) && EntryKey(longer[i]) == key
    {
      if key in before {
        var i :| 0 <= i < |log| && Rewarding(log[i]) && EntryKey(log[i]) == key;
        assert longer[i] == log[i];
      } else {
        assert longer[|log|] == entry;
      }
    }
  }

  lemma {:induction false} SerialRewardsOnce(setup: Setup, log: seq<Entry>)
    requires SerialAnswers(setup, log)
    ensures RowsOfLog(setup, log) && RewardedOnce(setup, log)
  {
    if log != [] {
      var n := |log| - 1;
      SerialRewardsOnce(setup, log[..n]);
      assert log[..n] + [log[n]] == log;
      RowsOfLogExtends(setup, log[..n], log[n]);
      RewardsOnceExtends(setup, log[..n], log[n]);
    }
  }

  /**
   Serialisability: after any interleaving of any number of calls, archives, stats, score rows and settlement rows are
   those of the logged calls run one after another; the log holds finished calls only, each at most once, and all that
   were answered, each with the answer it gets in that serial run; and no run is rewarded twice in it, not even when a
   caller was never told of the first time.
   */
  lemma Serialisable(setup: Setup, actions: seq<Action>)
    requires setup.locking
    ensures var s := Run(setup, actions);
            && s.db == SerialDb(setup, s.log)
            && SerialAnswers(setup, s.log)
            && NoCallTwice(s)
            && (forall entry :: entry in s.log ==> IsCall(s, entry))
            && (forall id :: id in s.txs && s.txs[id].pc.Done? ==> Logged(s, id))
            && RewardedOnce(setup, s.log)
  {
    SerialAlways(setup, actions);
    SerialRewardsOnce(setup, Run(setup, actions).log);
  }

  /** With the lock the duplicate-key rollback and re-read never happen. */
  lemma FallbackUnreachable(setup: Setup, actions: seq<Action>, id: TxId)
    requires setup.locking && id in Run(setup, actions).txs
    ensures var pc := Run(setup, actions).txs[id].pc; !pc.RollingBackDuplicate? && !pc.Rereading?
  {
    SerialAlways(setup, actions);
    assert Current(setup, Run(setup, actions).db, Run(setup, actions).txs[id]);
  }

  /** The number of statements a transaction still has before it. */
  function Remaining(pc: Pc): nat {
    match pc
    case Locking => 10
    case LookingUp => 9
    case ReadingArchive => 8
    case Computing(_) => 7
    case WritingStats(_) => 6
    case WritingScore(_, _) => 5
    case SavingArchive(_, _, _) => 4
    case Inserting(_, _, _, _) => 3
    case Committing(_, _) => 2
    case RollingBackDuplicate => 2
    case Rereading => 1
    case ClosingReplay(_) => 1
    case RollingBack(_) => 1
    case Done(_) => 0
  }

  lemma NextPcIsCloser(setup: Setup, db: Db, tx: Tx)
    requires Working(tx.pc) || tx.pc.Locking? || tx.pc.RollingBackDuplicate?
    ensures Remaining(NextPc(setup, db, tx)) < Remaining(tx.pc)
  {
  }

  /** A statement that is not blocked brings its transaction closer to its end and moves no other. */
  lemma AdvancedIsCloser(setup: Setup, s: System, id: TxId)
    requires id in s.txs && !s.txs[id].pc.Done? && !Blocked(setup, s, id)
    ensures id in Advanced(setup, s, id).txs
    ensures Remaining(Advanced(setup, s, id).txs[id].pc) < Remaining(s.txs[id].pc)
    ensures forall other :: other in s.txs && other != id ==>
              other in Advanced(setup, s, id).txs && Advanced(setup, s, id).txs[other] == s.txs[other]
  {
    var tx := s.txs[id];
    if Working(tx.pc) || tx.pc.Locking? || tx.pc.RollingBackDuplicate? {
      NextPcIsCloser(setup, s.db, tx);
    }
  }

  /** A transaction that holds its player's lock never waits. */
  lemma HolderNotBlocked(setup: Setup, s: System, id: TxId)
    requires LocksRight(s) && id in s.txs && Holds(s.txs[id].pc)
    ensures !Blocked(setup, s, id)
  {
  }

  /** No deadlock: while a call is unanswered, some unanswered call can execute its next statement. */
  lemma SomeoneAdvances(setup: Setup, actions: seq<Action>, waiting: TxId) returns (id: TxId)
    requires setup.locking
    requires waiting in Run(setup, actions).txs && !Run(setup, actions).txs[waiting].pc.Done?
    ensures var s := Run(setup, actions);
            && id in s.txs && !s.txs[id].pc.Done? && !Blocked(setup, s, id)
            && id in Advanced(setup, s, id).txs
            && Remaining(Advanced(setup, s, id).txs[id].pc) < Remaining(s.txs[id].pc)
            && (id == waiting || (s.txs[waiting].player in s.locks && s.locks[s.txs[waiting].player] == id))
  {
    var s := Run(setup, actions);
    SerialAlways(setup, actions);
    id := waiting;
    if s.txs[waiting].pc.Locking? && s.txs[waiting].player in s.locks {
      id := s.locks[s.txs[waiting].player];
    }
    if Holds(s.txs[id].pc) {
      HolderNotBlocked(setup, s, id);
    } else {
      FallbackUnreachable(setup, actions, id);
    }
    AdvancedIsCloser(setup, s, id);
  }
}
