/** The player table and its OpenID index in the in-memory store (internal/store/memory_development.go). */
module Players {
  import opened Common

  datatype Player = Player(id: int, openId: string, nickname: string, token: string)

  datatype AccountError = NotFound | OpenIdTaken

  datatype Accounts = Accounts(nextId: int, players: map<int, Player>, index: map<string, int>)

  const NO_ACCOUNTS := Accounts(1, map[], map[])

  // ---------------------------------------------------------------------------------------------------------------
  // The operations
  // ---------------------------------------------------------------------------------------------------------------

  function GetByOpenId(a: Accounts, openId: string): Result<Player, AccountError> {
    if openId !in a.index then Err(NotFound)
    else if a.index[openId] !in a.players then Err(NotFound)
    else Ok(a.players[a.index[openId]])
  }

  /** The table after a create, and the caller's record with its id filled in. */
  function Create(a: Accounts, player: Player): (Accounts, Result<Player, AccountError>) {
    if player.openId in a.index then (a, Err(OpenIdTaken))
    else
      var stored := player.(id := a.nextId);
      (Accounts(a.nextId + 1, a.players[stored.id := stored], a.index[stored.openId := stored.id]), Ok(stored))
  }

  function Update(a: Accounts, player: Player): (Accounts, Result<Player, AccountError>) {
    if player.id !in a.players then (a, Err(NotFound))
    else if player.openId in a.index && a.index[player.openId] != player.id then (a, Err(OpenIdTaken))
    else
      var stored := a.players[player.id];
      var index := if stored.openId != player.openId then a.index - {stored.openId} else a.index;
      (Accounts(a.nextId, a.players[player.id := player], index[player.openId := player.id]), Ok(player))
  }

  // ---------------------------------------------------------------------------------------------------------------
  // Every history of creates and updates
  // ---------------------------------------------------------------------------------------------------------------

  datatype Change = Creating(player: Player) | Updating(player: Player)

  function Apply(a: Accounts, change: Change): (Accounts, Result<Player, AccountError>) {
    match change
    case Creating(player) => Create(a, player)
    case Updating(player) => Update(a, player)
  }

  function ApplyAll(a: Accounts, changes: seq<Change>): Accounts {
    if changes == [] then a else Apply(ApplyAll(a, changes[..|changes| - 1]), changes[|changes| - 1]).0
  }

  /** Table and index are inverse to each other and every id was handed out. */
  ghost predicate Consistent(a: Accounts) {
    && a.nextId >= 1
    && (forall id :: id in a.players ==> 1 <= id < a.nextId && a.players[id].id == id)
    && (forall id :: id in a.players ==>
          a.players[id].openId in a.index && a.index[a.players[id].openId] == id)
    && (forall openId :: openId in a.index ==>
          a.index[openId] in a.players && a.players[a.index[openId]].openId == openId)
  }

  lemma ApplyKeepsConsistent(a: Accounts, change: Change)
    requires Consistent(a)
    ensures Consistent(Apply(a, change).0)
  {
  }

  /** Through every sequence of creates and renaming updates, accepted or rejected. */
  lemma {:induction false} HistoriesStayConsistent(changes: seq<Change>)
    ensures Consistent(ApplyAll(NO_ACCOUNTS, changes))
  {
    if changes != [] {
      HistoriesStayConsistent(changes[..|changes| - 1]);
      ApplyKeepsConsistent(ApplyAll(NO_ACCOUNTS, changes[..|changes| - 1]), changes[|changes| - 1]);
    }
  }

  /** Ids are never reused or withdrawn: later histories only extend the set of players. */
  lemma {:induction false} PlayersOnlyGrow(a: Accounts, changes: seq<Change>)
    requires Consistent(a)
    ensures Consistent(ApplyAll(a, changes))
    ensures a.players.Keys <= ApplyAll(a, changes).players.Keys
    ensures a.nextId <= ApplyAll(a, changes).nextId
  {
    if changes != [] {
      PlayersOnlyGrow(a, changes[..|changes| - 1]);
      ApplyKeepsConsistent(ApplyAll(a, changes[..|changes| - 1]), changes[|changes| - 1]);
    }
  }

  /** Ids are handed out in order, none left out: so far exactly those below the next one. */
  lemma {:induction false} IdsAreConsecutive(changes: seq<Change>)
    ensures forall id :: id in ApplyAll(NO_ACCOUNTS, changes).players <==> 1 <= id < ApplyAll(NO_ACCOUNTS, changes).nextId
  {
    if changes != [] {
      IdsAreConsecutive(changes[..|changes| - 1]);
      HistoriesStayConsistent(changes[..|changes| - 1]);
    }
  }

  /** A change is refused exactly when it would break the correspondence, and then changes nothing. */
  lemma RefusedIff(a: Accounts, change: Change)
    requires Consistent(a)
    ensures Apply(a, change).1.Err? ==> Apply(a, change).0 == a
    ensures change.Creating? ==>
              (Apply(a, change).1.Err? <==> exists id :: id in a.players && a.players[id].openId == change.player.openId)
    ensures change.Updating? ==>
              (Apply(a, change).1.Err? <==>
               || change.player.id !in a.players
               || exists id :: id in a.players && id != change.player.id && a.players[id].openId == change.player.openId)
  {
    if change.player.openId in a.index {
      var owner := a.index[change.player.openId];
      assert owner in a.players && a.players[owner].openId == change.player.openId;
    }
  }

  /** An accepted change stores the record under its id, which for a create is a new one, and touches no other. */
  lemma AcceptedChange(a: Accounts, change: Change)
    requires Consistent(a) && Apply(a, change).1.Ok?
    ensures var (after, result) := Apply(a, change);
            && after.players == a.players[result.value.id := result.value]
            && result.value == change.player.(id := result.value.id)
            && (change.Creating? ==> result.value.id !in a.players)
            && (change.Updating? ==> result.value.id == change.player.id && after.nextId == a.nextId)
            && GetByOpenId(after, change.player.openId) == Ok(result.value)
  {
  }

  /** Looking an OpenID up finds the one player that has it, and nothing exactly when nobody has. */
  lemma LookupFinds(a: Accounts, openId: string)
    requires Consistent(a)
    ensures GetByOpenId(a, openId).Ok? <==> exists id :: id in a.players && a.players[id].openId == openId
    ensures forall id :: id in a.players && a.players[id].openId == openId ==> GetByOpenId(a, openId) == Ok(a.players[id])
  {
    if openId in a.index {
      var owner := a.index[openId];
      assert owner in a.players && a.players[owner].openId == openId;
    }
  }
}
