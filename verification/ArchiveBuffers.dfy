/**
 The buffers that callers of the in-memory store hold: through every sequence of saves, reads, settlements and writes to
 those buffers, heap and store behave as if every buffer were a value of its own.
 */
module ArchiveBuffers {
  import opened Common
  import opened Settlement
  import opened Storage
  import opened MemoryStore

  /** What callers do; a buffer is known by the order in which callers came by it. */
  datatype Op =
    | Allocate(data: Blob)
    | Save(player: int64, buffer: nat)
    | Read(player: int64)
    | Scribble(buffer: nat, at: nat, value: byte)
    | Settling(player: int64, req: Request)

  /** The contents of the callers' buffers and of the store, as values. */
  datatype World = World(buffers: seq<Blob>, ledger: Ledger)

  function Written(bytes: Blob, at: nat, value: byte): Blob
    requires at < |bytes|
  {
    bytes[at := value]
  }

  function Applied(w: World, m: Marshaller, policy: Policy, op: Op): World {
    match op
    case Allocate(data) => w.(buffers := w.buffers + [data])
    case Save(player, buffer) =>
      if buffer < |w.buffers| then w.(ledger := w.ledger.(archives := w.ledger.archives[player := w.buffers[buffer]])) else w
    case Read(player) =>
      if player in w.ledger.archives then w.(buffers := w.buffers + [w.ledger.archives[player]]) else w
    case Scribble(buffer, at, value) =>
      if buffer < |w.buffers| && at < |w.buffers[buffer]|
      then w.(buffers := w.buffers[buffer := Written(w.buffers[buffer], at, value)]) else w
    case Settling(player, req) => w.(ledger := SettleLedger(w.ledger, m, policy, player, req).0)
  }

  function Played(w: World, m: Marshaller, policy: Policy, ops: seq<Op>): World {
    if ops == [] then w else Applied(Played(w, m, policy, ops[..|ops| - 1]), m, policy, ops[|ops| - 1])
  }

  lemma PlayedThen(w: World, m: Marshaller, policy: Policy, ops: seq<Op>, i: nat)
    requires i < |ops|
    ensures Played(w, m, policy, ops[..i + 1]) == Applied(Played(w, m, policy, ops[..i]), m, policy, ops[i])
  {
    assert ops[..i + 1][..i] == ops[..i];
  }

  /** The buffers on the heap: what they hold, all different, and none of them the store's. */
  ghost predicate Mirrors(store: MemoryDevelopmentStore, held: seq<array<byte>>, w: World)
    reads store, store.archivesByUid.Values, held
  {
    && |held| == |w.buffers|
    && (forall i :: 0 <= i < |held| ==> held[i][..] == w.buffers[i])
    && (forall i, j :: 0 <= i < j < |held| ==> held[i] != held[j])
    && (forall i :: 0 <= i < |held| ==> held[i] !in store.archivesByUid.Values)
    && store.LedgerValue() == w.ledger
  }

  /** A caller comes by one more buffer. */
  method Hold(store: MemoryDevelopmentStore, held: seq<array<byte>>, ghost w: World, data: Blob)
    returns (after: seq<array<byte>>)
    requires Mirrors(store, held, w)
    ensures Mirrors(store, after, w.(buffers := w.buffers + [data]))
    ensures forall k :: 0 <= k < |after| ==> (k < |held| && after[k] == held[k]) || fresh(after[k])
  {
    var buffer := new byte[|data|](i requires 0 <= i < |data| => data[i]);
    assert buffer[..] == data;
    after := held + [buffer];
  }

  method PlayOne(store: MemoryDevelopmentStore, held: seq<array<byte>>, ghost w: World, op: Op)
    returns (after: seq<array<byte>>)
    requires Mirrors(store, held, w)
    modifies store`archivesByUid, store`settlements, store`playerLevels, held
    ensures Mirrors(store, after, Applied(w, store.marshaller, store.policy, op))
    ensures forall k :: 0 <= k < |after| ==> (k < |held| && after[k] == held[k]) || fresh(after[k])
  {
    after := held;
    match op
    case Allocate(data) =>
      after := Hold(store, held, w, data);
    case Save(player, buffer) =>
      if buffer < |held| {
        store.SaveArchive(player, held[buffer]);
      }
    case Read(player) =>
      var data := store.GetArchive(player);
      if data != null {
        after := held + [data];
      }
    case Scribble(buffer, at, value) =>
      if buffer < |held| && at < held[buffer].Length {
        held[buffer][at] := value;
      }
    case Settling(player, req) =>
      var _ := store.Settle(player, req);
  }

  /** Every sequence: what callers' buffers and store hold on the heap is what they hold as values. */
  method Play(store: MemoryDevelopmentStore, ops: seq<Op>) returns (held: seq<array<byte>>)
    modifies store`archivesByUid, store`settlements, store`playerLevels
    ensures Mirrors(store, held, Played(World([], old(store.LedgerValue())), store.marshaller, store.policy, ops))
  {
    held := [];
    ghost var start := World([], store.LedgerValue());
    ghost var w := start;
    for i := 0 to |ops|
      invariant forall k :: 0 <= k < |held| ==> fresh(held[k])
      invariant Mirrors(store, held, w)
      invariant w == Played(start, store.marshaller, store.policy, ops[..i])
    {
      PlayedThen(start, store.marshaller, store.policy, ops, i);
      held := PlayOne(store, held, w, ops[i]);
      w := Applied(w, store.marshaller, store.policy, ops[i]);
    }
    assert ops[..|ops|] == ops;
  }

  /** Callers' buffers are theirs: they hold what was allocated or read, and what callers wrote since. */
  lemma BuffersAreCallers(w: World, m: Marshaller, policy: Policy, op: Op)
    ensures var after := Applied(w, m, policy, op).buffers;
            match op
            case Allocate(data) => after == w.buffers + [data]
            case Read(player) =>
              after == w.buffers + (if player in w.ledger.archives then [w.ledger.archives[player]] else [])
            case Scribble(buffer, at, value) =>
              && |after| == |w.buffers|
              && (forall i :: 0 <= i < |after| && i != buffer ==> after[i] == w.buffers[i])
              && (buffer < |after| && at < |w.buffers[buffer]| ==>
                    && |after[buffer]| == |w.buffers[buffer]| && after[buffer][at] == value
                    && forall k :: 0 <= k < |after[buffer]| && k != at ==> after[buffer][k] == w.buffers[buffer][k])
            case _ => after == w.buffers
  {
  }

  /** Nothing is written to the player's archive by these operations. */
  ghost predicate LeavesArchive(ops: seq<Op>, player: int64) {
    forall op :: op in ops ==> !(op.Save? && op.player == player) && !(op.Settling? && op.player == player)
  }

  lemma {:induction false} ArchiveStays(w: World, m: Marshaller, policy: Policy, ops: seq<Op>, player: int64)
    requires LeavesArchive(ops, player)
    ensures Lookup(Played(w, m, policy, ops).ledger.archives, player) == Lookup(w.ledger.archives, player)
  {
    if ops != [] {
      var n := |ops| - 1;
      assert ops[n] in ops;
      ArchiveStays(w, m, policy, ops[..n], player);
    }
  }

  /**
   Archive bytes read back are those at save time, whatever callers did to any of their buffers in between, the one that
   was saved and those read earlier included.
   */
  lemma ReadsWhatWasSaved(w: World, m: Marshaller, policy: Policy, ops: seq<Op>, player: int64, buffer: nat)
    requires buffer < |w.buffers| && LeavesArchive(ops, player)
    ensures var later := Played(Applied(w, m, policy, Save(player, buffer)), m, policy, ops);
            Applied(later, m, policy, Read(player)).buffers == later.buffers + [w.buffers[buffer]]
  {
    ArchiveStays(Applied(w, m, policy, Save(player, buffer)), m, policy, ops, player);
  }
}
