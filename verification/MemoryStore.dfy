/** The mutex-protected development store (internal/store/memory_development.go): each method is one critical section. */
module MemoryStore {
  import opened Common
  import opened Settlement
  import opened Storage
  import opened Players

  datatype SessionData = SessionData(uid: int, nickname: string, token: string)

  /** The settlement half of the store as a value. */
  datatype Ledger = Ledger(archives: map<int64, Blob>, settlements: map<Key, Blob>, levels: map<int64, int32>)

  const EMPTY_LEDGER := Ledger(map[], map[], map[])

  function StoredLevel(levels: map<int64, int32>, player: int64): int32 {
    if player in levels then levels[player] else 0
  }

  function RaisedLevels(levels: map<int64, int32>, player: int64, level: int32): map<int64, int32> {
    if level > StoredLevel(levels, player) then levels[player := level] else levels
  }

  function Recorded(l: Ledger, player: int64, req: Request, archiveData: Blob, responseData: Blob): Ledger {
    Ledger(l.archives[player := archiveData],
           l.settlements[KeyOf(player, req) := responseData],
           RaisedLevels(l.levels, player, req.playerLevel))
  }

  /** One Settle call: the ledger afterwards and what the caller is told. */
  function SettleLedger(l: Ledger, m: Marshaller, policy: Policy, player: int64, req: Request)
    : (Ledger, Result<Response, Failure>)
  {
    var key := KeyOf(player, req);
    if key in l.settlements then (l, ReplayStored(m, l.settlements[key], req))
    else match SettleStored(m, policy, Lookup(l.archives, player), req)
      case Err(failure) => (l, Err(failure))
      case Ok(response) =>
        var archiveData := m.putArchive(response.archive.value);
        var responseData := m.putResponse(response);
        if archiveData.None? || responseData.None? then (l, Err(EncodeFailed))
        else (Recorded(l, player, req, archiveData.value, responseData.value), Ok(response))
  }

  function DevelopmentLevel(l: Ledger, player: int64): int32 {
    if StoredLevel(l.levels, player) > 0 then StoredLevel(l.levels, player) else 1
  }

  class MemoryDevelopmentStore {
    const policy: Policy
    const marshaller: Marshaller

    var nextPlayerId: int
    var playersById: map<int, Player>
    var playerIdByOpenId: map<string, int>
    var sessionsByUid: map<int64, SessionData>
    var archivesByUid: map<int64, array<byte>>
    var settlements: map<Key, Blob>
    var playerLevels: map<int64, int32>

    function AccountsValue(): Accounts
      reads this
    {
      Accounts(nextPlayerId, playersById, playerIdByOpenId)
    }

    ghost function LedgerValue(): Ledger
      reads this, archivesByUid.Values
    {
      Ledger(map player | player in archivesByUid :: archivesByUid[player][..], settlements, playerLevels)
    }

    constructor (policy: Policy, marshaller: Marshaller)
      requires AcceptedPolicy(policy)
      ensures this.policy == policy && this.marshaller == marshaller
      ensures AccountsValue() == NO_ACCOUNTS && sessionsByUid == map[]
      ensures LedgerValue() == EMPTY_LEDGER && archivesByUid == map[]
    {
      this.policy, this.marshaller := policy, marshaller;
      nextPlayerId, playersById, playerIdByOpenId := 1, map[], map[];
      sessionsByUid, archivesByUid, settlements, playerLevels := map[], map[], map[], map[];
    }

    method CreatePlayer(player: Player) returns (result: Result<Player, AccountError>)
      modifies this`nextPlayerId, this`playersById, this`playerIdByOpenId
      ensures (AccountsValue(), result) == Create(old(AccountsValue()), player)
    {
      if player.openId in playerIdByOpenId {
        return Err(OpenIdTaken);
      }
      var stored := player.(id := nextPlayerId);
      nextPlayerId := nextPlayerId + 1;
      playersById := playersById[stored.id := stored];
      playerIdByOpenId := playerIdByOpenId[stored.openId := stored.id];
      return Ok(stored);
    }

    method UpdatePlayer(player: Player) returns (result: Result<Player, AccountError>)
      modifies this`playersById, this`playerIdByOpenId
      ensures (AccountsValue(), result) == Update(old(AccountsValue()), player)
    {
      if player.id !in playersById {
        return Err(NotFound);
      }
      var stored := playersById[player.id];
      if player.openId in playerIdByOpenId && playerIdByOpenId[player.openId] != player.id {
        return Err(OpenIdTaken);
      }
      if stored.openId != player.openId {
        playerIdByOpenId := playerIdByOpenId - {stored.openId};
      }
      playersById := playersById[player.id := player];
      playerIdByOpenId := playerIdByOpenId[player.openId := player.id];
      return Ok(player);
    }

    /** Puts a private buffer with the given bytes into the table. */
    method PutArchive(player: int64, bytes: Blob)
      modifies this`archivesByUid
      ensures fresh(archivesByUid.Values - old(archivesByUid.Values))
      ensures LedgerValue() == old(LedgerValue()).(archives := old(LedgerValue()).archives[player := bytes])
    {
      var stored := new byte[|bytes|](i requires 0 <= i < |bytes| => bytes[i]);
      archivesByUid := archivesByUid[player := stored];
      assert stored[..] == bytes;
      assert forall p :: p in archivesByUid && p != player ==> archivesByUid[p] == old(archivesByUid)[p];
    }

    /** The stored buffer is a copy: nothing the caller holds reaches the store. */
    method SaveArchive(player: int64, data: array<byte>)
      modifies this`archivesByUid
      ensures fresh(archivesByUid.Values - old(archivesByUid.Values))
      ensures LedgerValue() == old(LedgerValue()).(archives := old(LedgerValue()).archives[player := data[..]])
    {
      PutArchive(player, data[..]);
    }

    /** The returned buffer is a copy: writing to it does not reach the store. */
    method GetArchive(player: int64) returns (data: array?<byte>)
      ensures data == null <==> player !in LedgerValue().archives
      ensures data != null ==> fresh(data) && data[..] == LedgerValue().archives[player]
    {
      if player !in archivesByUid {
        return null;
      }
      var stored := archivesByUid[player];
      data := new byte[stored.Length](i requires 0 <= i < stored.Length reads stored => stored[i]);
      assert data[..] == stored[..];
    }

    /** The part of Settle that only reads the store: decode the player's archive and add the run to it. */
    method SettleDecoded(player: int64, req: Request) returns (result: Result<Response, Failure>)
      ensures result == SettleStored(marshaller, policy, Lookup(LedgerValue().archives, player), req)
    {
      var start := FRESH_ARCHIVE;
      if player in archivesByUid {
        match marshaller.getArchive(archivesByUid[player][..])
        case None => return Err(MalformedArchive);
        case Some(decoded) => start := decoded;
      }
      var archive := new PlayerArchive(start);
      var settled;
      settled, archive := SettleArchive(archive, req, policy);
      if settled.Err? {
        return Err(Overflow(settled.error));
      }
      return Ok(settled.value);
    }

    method Settle(player: int64, req: Request) returns (result: Result<Response, Failure>)
      modifies this`archivesByUid, this`settlements, this`playerLevels
      ensures fresh(archivesByUid.Values - old(archivesByUid.Values))
      ensures (LedgerValue(), result) == SettleLedger(old(LedgerValue()), marshaller, policy, player, req)
    {
      var key := KeyOf(player, req);
      if key in settlements {
        match marshaller.getResponse(settlements[key])
        case None => return Err(MalformedResponse);
        case Some(response) => return Ok(response.(duplicate := true, runId := req.runId));
      }
      result := SettleDecoded(player, req);
      if result.Err? {
        return;
      }
      var archiveData := marshaller.putArchive(result.value.archive.value);
      if archiveData.None? {
        return Err(EncodeFailed);
      }
      var responseData := marshaller.putResponse(result.value);
      if responseData.None? {
        return Err(EncodeFailed);
      }
      Record(player, req, archiveData.value, responseData.value);
    }

    /** The assignments that end a first settlement. */
    method Record(player: int64, req: Request, archiveData: Blob, responseData: Blob)
      modifies this`archivesByUid, this`settlements, this`playerLevels
      ensures fresh(archivesByUid.Values - old(archivesByUid.Values))
      ensures LedgerValue() == Recorded(old(LedgerValue()), player, req, archiveData, responseData)
    {
      PutArchive(player, archiveData);
      if req.playerLevel > StoredLevel(playerLevels, player) {
        playerLevels := playerLevels[player := req.playerLevel];
      }
      settlements := settlements[KeyOf(player, req) := responseData];
    }

    method GetDevelopmentPlayerLevel(player: int64) returns (level: int32)
      ensures level == DevelopmentLevel(LedgerValue(), player)
    {
      level := StoredLevel(playerLevels, player);
      if level <= 0 {
        level := 1;
      }
    }
  }
}
