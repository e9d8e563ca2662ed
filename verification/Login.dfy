/**
 Any number of interleaved logins over the in-memory repository (internal/login/service.go): each repository call is one
 critical section, and between them anything may happen.
 */
module Login {
  import opened Common
  import opened Players
  import opened MemoryStore
  import RankMember

  type LoginId = nat

  datatype LoginResult = LoginResult(uid: int, nickname: string, token: string)

  datatype LoginError = Refused(error: AccountError) | Broken

  /** The next repository call of a login, with the caller's own copy of the player record. */
  datatype Pc =
    | LookingUp
    | CreatingPlayer
    | Naming(player: Player)
    | Tokening(player: Player)
    | StoringSession(player: Player)
    | Done(result: Result<LoginResult, LoginError>)

  /** A login whose code was exchanged for this identity. */
  datatype Attempt = Attempt(openId: string, pc: Pc)

  /** `creators` remembers which login created each player. */
  datatype System = System(
    accounts: Accounts,
    sessions: map<int, SessionData>,
    attempts: map<LoginId, Attempt>,
    nextAttempt: LoginId,
    creators: map<int, LoginId>)

  datatype Action =
    | Begin(openId: string)
    | Advance(id: LoginId, token: string)
    | Break(id: LoginId)

  const START := System(NO_ACCOUNTS, map[], map[], 0, map[])

  function DefaultNickname(id: int): string {
    "玩家" + RankMember.FormatInt(id)
  }

  function Goto(s: System, id: LoginId, pc: Pc): System
    requires id in s.attempts
  {
    s.(attempts := s.attempts[id := s.attempts[id].(pc := pc)])
  }

  /** One critical section of one login. */
  function Advanced(s: System, id: LoginId, token: string): System
    requires id in s.attempts
  {
    var attempt := s.attempts[id];
    match attempt.pc
    case LookingUp =>
      (match GetByOpenId(s.accounts, attempt.openId)
       case Ok(player) => Goto(s, id, Tokening(player))
       case Err(_) => Goto(s, id, CreatingPlayer))
    case CreatingPlayer =>
      var (accounts, created) := Create(s.accounts, Player(0, attempt.openId, "", ""));
      (match created
       case Err(error) => Goto(s, id, Done(Err(Refused(error))))
       case Ok(player) =>
         Goto(s.(accounts := accounts, creators := s.creators[player.id := id]), id, Naming(player.(nickname := DefaultNickname(player.id)))))
    case Naming(player) =>
      var (accounts, updated) := Update(s.accounts, player);
      (match updated
       case Err(error) => Goto(s, id, Done(Err(Refused(error))))
       case Ok(_) => Goto(s.(accounts := accounts), id, Tokening(player)))
    case Tokening(player) =>
      var named := player.(token := token);
      var (accounts, updated) := Update(s.accounts, named);
      (match updated
       case Err(error) => Goto(s, id, Done(Err(Refused(error))))
       case Ok(_) => Goto(s.(accounts := accounts), id, StoringSession(named)))
    case StoringSession(player) =>
      var stored := s.(sessions := s.sessions[player.id := SessionData(player.id, player.nickname, player.token)]);
      Goto(stored, id, Done(Ok(LoginResult(player.id, player.nickname, player.token))))
    case Done(_) => s
  }

  /** Every action is possible in every state; `Break` is a token generator failure or a lost caller. */
  function Step(s: System, action: Action): System {
    match action
    case Begin(openId) =>
      s.(attempts := s.attempts[s.nextAttempt := Attempt(openId, LookingUp)], nextAttempt := s.nextAttempt + 1)
    case Advance(id, token) => if id in s.attempts then Advanced(s, id, token) else s
    case Break(id) => if id in s.attempts && !s.attempts[id].pc.Done? then Goto(s, id, Done(Err(Broken))) else s
  }

  function Run(actions: seq<Action>): System {
    if actions == [] then START else Step(Run(actions[..|actions| - 1]), actions[|actions| - 1])
  }

  // ---------------------------------------------------------------------------------------------------------------
  // Identity
  // ---------------------------------------------------------------------------------------------------------------

  /** This id belongs to this identity. */
  predicate Owns(a: Accounts, id: int, openId: string) {
    id in a.players && a.players[id].openId == openId
  }

  ghost predicate AttemptRight(a: Accounts, attempt: Attempt) {
    match attempt.pc
    case Naming(player) => player.openId == attempt.openId && Owns(a, player.id, attempt.openId)
    case Tokening(player) => player.openId == attempt.openId && Owns(a, player.id, attempt.openId)
    case StoringSession(player) => player.openId == attempt.openId && Owns(a, player.id, attempt.openId)
    case Done(Ok(result)) => Owns(a, result.uid, attempt.openId)
    case Done(Err(error)) => error == Broken || error == Refused(OpenIdTaken)
    case _ => true
  }

  ghost predicate LoginInv(s: System) {
    && Consistent(s.accounts)
    && (forall id :: id in s.attempts ==> id < s.nextAttempt && AttemptRight(s.accounts, s.attempts[id]))
    && (forall uid :: uid in s.sessions ==> uid in s.accounts.players && s.sessions[uid].uid == uid)
  }

  /** Whatever a login does to the table, everybody keeps their identity. */
  lemma OwnersStay(a: Accounts, change: Change)
    requires Consistent(a)
    requires change.Updating? ==> Owns(a, change.player.id, change.player.openId)
    ensures Consistent(Apply(a, change).0)
    ensures forall id, openId :: Owns(a, id, openId) ==> Owns(Apply(a, change).0, id, openId)
    ensures change.Updating? ==> Apply(a, change).1.Ok?
    ensures change.Creating? && Apply(a, change).1.Ok? ==>
              Owns(Apply(a, change).0, Apply(a, change).1.value.id, change.player.openId)
  {
    ApplyKeepsConsistent(a, change);
    if Apply(a, change).1.Ok? {
      AcceptedChange(a, change);
    }
  }

  lemma FoundIsOwned(a: Accounts, openId: string)
    requires Consistent(a) && GetByOpenId(a, openId).Ok?
    ensures var player := GetByOpenId(a, openId).value;
            player.openId == openId && Owns(a, player.id, openId)
  {
    var id := a.index[openId];
    assert id in a.players && a.players[id].id == id;
  }

  /** Each repository call keeps the table consistent and everybody's identity. */
  lemma AdvanceKeepsIdentities(s: System, id: LoginId, token: string)
    requires Consistent(s.accounts) && id in s.attempts && AttemptRight(s.accounts, s.attempts[id])
    ensures Consistent(Advanced(s, id, token).accounts)
    ensures forall uid, openId :: Owns(s.accounts, uid, openId) ==> Owns(Advanced(s, id, token).accounts, uid, openId)
  {
    match s.attempts[id].pc
    case CreatingPlayer => OwnersStay(s.accounts, Creating(Player(0, s.attempts[id].openId, "", "")));
    case Naming(player) => OwnersStay(s.accounts, Updating(player));
    case Tokening(player) => OwnersStay(s.accounts, Updating(player.(token := token)));
    case _ =>
  }

  /** The login's own copy is right after the call. */
  lemma AdvanceKeepsOwn(s: System, id: LoginId, token: string)
    requires Consistent(s.accounts) && id in s.attempts && AttemptRight(s.accounts, s.attempts[id])
    ensures AttemptRight(Advanced(s, id, token).accounts, Advanced(s, id, token).attempts[id])
  {
    var attempt := s.attempts[id];
    match attempt.pc
    case LookingUp => if GetByOpenId(s.accounts, attempt.openId).Ok? { FoundIsOwned(s.accounts, attempt.openId); }
    case CreatingPlayer => OwnersStay(s.accounts, Creating(Player(0, attempt.openId, "", "")));
    case Naming(player) => OwnersStay(s.accounts, Updating(player));
    case Tokening(player) => OwnersStay(s.accounts, Updating(player.(token := token)));
    case _ =>
  }

  lemma OtherStaysRight(a: Accounts, after: Accounts, attempt: Attempt)
    requires AttemptRight(a, attempt)
    requires forall uid, openId :: Owns(a, uid, openId) ==> Owns(after, uid, openId)
    ensures AttemptRight(after, attempt)
  {
  }

  lemma AdvanceKeeps(s: System, id: LoginId, token: string)
    requires LoginInv(s) && id in s.attempts
    ensures LoginInv(Advanced(s, id, token))
  {
    var after := Advanced(s, id, token);
    assert AttemptRight(s.accounts, s.attempts[id]);
    AdvanceKeepsIdentities(s, id, token);
    AdvanceKeepsOwn(s, id, token);
    forall other | other in after.attempts && other != id ensures AttemptRight(after.accounts, after.attempts[other]) {
      OtherStaysRight(s.accounts, after.accounts, s.attempts[other]);
    }
    AdvanceKeepsSessions(s, id, token);
  }

  lemma AdvanceKeepsSessions(s: System, id: LoginId, token: string)
    requires LoginInv(s) && id in s.attempts
    ensures forall uid :: uid in Advanced(s, id, token).sessions ==>
              uid in Advanced(s, id, token).accounts.players && Advanced(s, id, token).sessions[uid].uid == uid
  {
    assert AttemptRight(s.accounts, s.attempts[id]);
  }

  lemma StepKeeps(s: System, action: Action)
    requires LoginInv(s)
    ensures LoginInv(Step(s, action))
    ensures forall uid :: uid in s.accounts.players ==> uid in Step(s, action).accounts.players
  {
    if action.Advance? && action.id in s.attempts {
      AdvanceKeeps(s, action.id, action.token);
    }
  }

  lemma {:induction false} LoginInvAlways(actions: seq<Action>)
    ensures LoginInv(Run(actions))
  {
    if actions != [] {
      LoginInvAlways(actions[..|actions| - 1]);
      StepKeeps(Run(actions[..|actions| - 1]), actions[|actions| - 1]);
    }
  }

  predicate Succeeded(s: System, id: LoginId) {
    id in s.attempts && s.attempts[id].pc.Done? && s.attempts[id].pc.result.Ok?
  }

  /**
   Identity, for any interleaving of any number of logins: no two players share an OpenID, two successful logins return
   the same uid exactly when they were for the same identity, and that uid is a player of that identity.
   */
  lemma LoginsIdentify(actions: seq<Action>, a: LoginId, b: LoginId)
    requires Succeeded(Run(actions), a) && Succeeded(Run(actions), b)
    ensures var s := Run(actions);
            && Consistent(s.accounts)
            && (forall p, q :: (p in s.accounts.players && q in s.accounts.players
                                && s.accounts.players[p].openId == s.accounts.players[q].openId) ==> p == q)
            && Owns(s.accounts, s.attempts[a].pc.result.value.uid, s.attempts[a].openId)
            && s.attempts[a].pc.result.value.uid >= 1
            && (s.attempts[a].pc.result.value.uid == s.attempts[b].pc.result.value.uid
                <==> s.attempts[a].openId == s.attempts[b].openId)
  {
    LoginInvAlways(actions);
    var s := Run(actions);
    assert AttemptRight(s.accounts, s.attempts[a]) && AttemptRight(s.accounts, s.attempts[b]);
  }

  // ---------------------------------------------------------------------------------------------------------------
  // What a login comes to
  // ---------------------------------------------------------------------------------------------------------------

  /** The login has ended well: the caller has uid, nickname and token, player and session hold the same. */
  ghost predicate LoggedIn(s: System, after: System, id: LoginId, openId: string, player: Player) {
    && id in after.attempts
    && after.attempts[id] == Attempt(openId, Done(Ok(LoginResult(player.id, player.nickname, player.token))))
    && player.openId == openId
    && after.accounts.players == s.accounts.players[player.id := player]
    && after.sessions == s.sessions[player.id := SessionData(player.id, player.nickname, player.token)]
  }

  /** From the token on: player and session get it, and the caller is answered. */
  lemma TokenPath(s: System, id: LoginId, player: Player, token: string)
    requires Consistent(s.accounts) && id in s.attempts && s.attempts[id].pc == Tokening(player)
    requires player.openId == s.attempts[id].openId && Owns(s.accounts, player.id, player.openId)
    ensures var one := Advanced(s, id, token);
            id in one.attempts && LoggedIn(s, Advanced(one, id, token), id, s.attempts[id].openId, player.(token := token))
  {
    OwnersStay(s.accounts, Updating(player.(token := token)));
  }

  lemma KnownPath(s: System, id: LoginId, token: string)
    requires Consistent(s.accounts) && id in s.attempts && s.attempts[id].pc.LookingUp?
    requires GetByOpenId(s.accounts, s.attempts[id].openId).Ok?
    ensures var player := GetByOpenId(s.accounts, s.attempts[id].openId).value;
            var one := Advanced(s, id, token);
            && id in one.attempts && id in Advanced(one, id, token).attempts
            && LoggedIn(s, Advanced(Advanced(one, id, token), id, token), id, s.attempts[id].openId, player.(token := token))
  {
    FoundIsOwned(s.accounts, s.attempts[id].openId);
    var player := GetByOpenId(s.accounts, s.attempts[id].openId).value;
    TokenPath(Advanced(s, id, token), id, player, token);
  }

  /** Up to the token: a new player under the next id, with a nickname made from it. */
  lemma NewPath(s: System, id: LoginId, token: string)
    requires Consistent(s.accounts) && id in s.attempts && s.attempts[id].pc.LookingUp?
    requires GetByOpenId(s.accounts, s.attempts[id].openId).Err?
    ensures var openId, uid := s.attempts[id].openId, s.accounts.nextId;
            var player := Player(uid, openId, "玩家" + RankMember.FormatInt(uid), "");
            var one := Advanced(s, id, token);
            && id in one.attempts && id in Advanced(one, id, token).attempts
            && var named := Advanced(Advanced(one, id, token), id, token);
            && id in named.attempts && named.attempts[id] == Attempt(openId, Tokening(player))
            && named.accounts.players == s.accounts.players[uid := player]
            && named.sessions == s.sessions && Consistent(named.accounts) && Owns(named.accounts, uid, openId)
  {
    var openId := s.attempts[id].openId;
    var one := Advanced(s, id, token);
    assert one.attempts[id].pc.CreatingPlayer? && one.accounts == s.accounts;
    OwnersStay(s.accounts, Creating(Player(0, openId, "", "")));
    var two := Advanced(one, id, token);
    var player := Player(s.accounts.nextId, openId, "玩家" + RankMember.FormatInt(s.accounts.nextId), "");
    assert two.attempts[id].pc == Naming(player);
    OwnersStay(two.accounts, Updating(player));
  }

  /** The create call succeeds exactly when nobody has the identity by then; otherwise the login is refused. */
  lemma CreateDecides(s: System, id: LoginId, token: string)
    requires Consistent(s.accounts) && id in s.attempts && s.attempts[id].pc.CreatingPlayer?
    ensures var openId := s.attempts[id].openId;
            var after := Advanced(s, id, token);
            && id in after.attempts
            && ((exists uid :: Owns(s.accounts, uid, openId)) ==>
                  after == s.(attempts := s.attempts[id := Attempt(openId, Done(Err(Refused(OpenIdTaken))))]))
            && ((forall uid :: !Owns(s.accounts, uid, openId)) ==>
                  && after.attempts[id].pc.Naming?
                  && var uid := after.attempts[id].pc.player.id;
                  uid == s.accounts.nextId && after.accounts.players == s.accounts.players[uid := Player(uid, openId, "", "")])
  {
    RefusedIff(s.accounts, Creating(Player(0, s.attempts[id].openId, "", "")));
    if s.attempts[id].openId in s.accounts.index {
      assert Owns(s.accounts, s.accounts.index[s.attempts[id].openId], s.attempts[id].openId);
    }
  }

  /** A login that breaks off in between changes neither players nor sessions. */
  lemma BreakingOff(s: System, id: LoginId)
    requires id in s.attempts && !s.attempts[id].pc.Done?
    ensures Step(s, Break(id)) == s.(attempts := s.attempts[id := s.attempts[id].(pc := Done(Err(Broken)))])
  {
  }

  /** So many critical sections of one login, nobody else coming in between. */
  function Advances(s: System, id: LoginId, token: string, n: nat): System {
    if n == 0 then s else Step(Advances(s, id, token, n - 1), Advance(id, token))
  }

  lemma KnownSucceeds(s: System, id: LoginId, token: string)
    requires Consistent(s.accounts) && id in s.attempts && s.attempts[id].pc.LookingUp?
    requires GetByOpenId(s.accounts, s.attempts[id].openId).Ok?
    ensures LoggedIn(s, Advances(s, id, token, 5), id, s.attempts[id].openId,
                     GetByOpenId(s.accounts, s.attempts[id].openId).value.(token := token))
  {
    KnownPath(s, id, token);
    var one := Advances(s, id, token, 1);
    assert Advances(s, id, token, 0) == s && one == Advanced(s, id, token);
    var two := Advances(s, id, token, 2);
    assert two == Advanced(Advanced(s, id, token), id, token);
    var three := Advances(s, id, token, 3);
    assert three == Advanced(two, id, token);
    assert Advances(s, id, token, 4) == three;
  }

  lemma NewSucceeds(s: System, id: LoginId, token: string)
    requires Consistent(s.accounts) && id in s.attempts && s.attempts[id].pc.LookingUp?
    requires GetByOpenId(s.accounts, s.attempts[id].openId).Err?
    ensures var uid := s.accounts.nextId;
            LoggedIn(s, Advances(s, id, token, 5), id, s.attempts[id].openId,
                     Player(uid, s.attempts[id].openId, "玩家" + RankMember.FormatInt(uid), token))
  {
    NewPath(s, id, token);
    var one := Advances(s, id, token, 1);
    assert Advances(s, id, token, 0) == s && one == Advanced(s, id, token);
    var two := Advances(s, id, token, 2);
    assert two == Advanced(Advanced(s, id, token), id, token);
    var named := Advances(s, id, token, 3);
    assert named == Advanced(two, id, token);
    var player := named.attempts[id].pc.player;
    TokenPath(named, id, player, token);
    var four := Advances(s, id, token, 4);
    assert four == Advanced(named, id, token);
    assert Advances(s, id, token, 5) == Advanced(four, id, token);
    assert s.accounts.players[player.id := player][player.id := player.(token := token)]
        == s.accounts.players[player.id := player.(token := token)];
  }

  /**
   An uninterrupted login succeeds: five critical sections at most return, and store in player and session, the generated
   token with uid and nickname of the player of this identity, who is created under the next id if there was none.
   */
  lemma UninterruptedLogin(s: System, openId: string, token: string) returns (player: Player)
    requires LoginInv(s)
    ensures var begun := Step(s, Begin(openId));
            LoggedIn(s, Advances(begun, s.nextAttempt, token, 5), s.nextAttempt, openId, player)
    ensures player.token == token
    ensures match GetByOpenId(s.accounts, openId)
            case Ok(known) => player.id == known.id && player.nickname == known.nickname
            case Err(_) => player.id == s.accounts.nextId && player.nickname == "玩家" + RankMember.FormatInt(player.id)
  {
    var id, begun := s.nextAttempt, Step(s, Begin(openId));
    if GetByOpenId(s.accounts, openId).Ok? {
      KnownSucceeds(begun, id, token);
      player := GetByOpenId(s.accounts, openId).value.(token := token);
    } else {
      NewSucceeds(begun, id, token);
      player := Player(s.accounts.nextId, openId, "玩家" + RankMember.FormatInt(s.accounts.nextId), token);
    }
  }

  // ---------------------------------------------------------------------------------------------------------------
  // Who is refused
  // ---------------------------------------------------------------------------------------------------------------

  /** The repository has refused this login. */
  predicate WasRefused(s: System, id: LoginId) {
    id in s.attempts && s.attempts[id].pc.Done? && s.attempts[id].pc.result.Err? && s.attempts[id].pc.result.error.Refused?
  }

  /** This login created the player of its identity. */
  ghost predicate Created(s: System, id: LoginId, openId: string) {
    && id in s.attempts && s.attempts[id].openId == openId
    && exists uid :: Owns(s.accounts, uid, openId) && uid in s.creators && s.creators[uid] == id
  }

  /** A login that has not created a player yet. */
  predicate Empty(attempt: Attempt) {
    attempt.pc.LookingUp? || attempt.pc.CreatingPlayer?
  }

  ghost predicate CreatorsRight(s: System) {
    && (forall uid :: uid in s.accounts.players ==>
          && uid in s.creators && s.creators[uid] in s.attempts
          && s.attempts[s.creators[uid]].openId == s.accounts.players[uid].openId
          && !Empty(s.attempts[s.creators[uid]]) && !WasRefused(s, s.creators[uid]))
    && (forall id :: WasRefused(s, id) ==>
          exists uid :: uid in s.accounts.players && Owns(s.accounts, uid, s.attempts[id].openId))
  }

  lemma CreatingKeepsCreators(s: System, id: LoginId, token: string)
    requires LoginInv(s) && CreatorsRight(s) && id in s.attempts && s.attempts[id].pc.CreatingPlayer?
    ensures CreatorsRight(Advanced(s, id, token))
  {
    var after := Advanced(s, id, token);
    var openId := s.attempts[id].openId;
    OwnersStay(s.accounts, Creating(Player(0, openId, "", "")));
    if after.accounts == s.accounts {
      var uid := s.accounts.index[openId];
      assert Owns(after.accounts, uid, openId);
    }
    forall other | WasRefused(after, other)
      ensures exists uid :: uid in after.accounts.players && Owns(after.accounts, uid, after.attempts[other].openId)
    {
      if other != id {
        var uid :| uid in s.accounts.players && Owns(s.accounts, uid, s.attempts[other].openId);
        assert Owns(after.accounts, uid, after.attempts[other].openId);
      }
    }
  }

  /** A step that creates no player keeps every identity where it is and refuses nobody. */
  lemma OtherStepsKeepCreators(s: System, after: System)
    requires LoginInv(s) && CreatorsRight(s) && after.creators == s.creators
    requires after.accounts.players.Keys == s.accounts.players.Keys
    requires forall uid, openId :: Owns(s.accounts, uid, openId) ==> Owns(after.accounts, uid, openId)
    requires forall id :: id in s.attempts ==>
               && id in after.attempts && after.attempts[id].openId == s.attempts[id].openId
               && (Empty(after.attempts[id]) ==> Empty(s.attempts[id]))
    requires forall id :: WasRefused(after, id) ==> WasRefused(s, id)
    ensures CreatorsRight(after)
  {
    forall uid | uid in after.accounts.players
      ensures after.accounts.players[uid].openId == s.accounts.players[uid].openId
    {
      assert Owns(s.accounts, uid, s.accounts.players[uid].openId);
    }
    forall id | WasRefused(after, id)
      ensures exists uid :: uid in after.accounts.players && Owns(after.accounts, uid, after.attempts[id].openId)
    {
      var uid :| uid in s.accounts.players && Owns(s.accounts, uid, s.attempts[id].openId);
      assert Owns(after.accounts, uid, after.attempts[id].openId);
    }
  }

  /** Only the create call is ever refused, and only a lookup that found nobody leads to it. */
  lemma OnlyCreateIsRefused(s: System, id: LoginId, token: string)
    requires Consistent(s.accounts) && id in s.attempts && AttemptRight(s.accounts, s.attempts[id])
    ensures var after := Advanced(s, id, token).attempts[id];
            && after.openId == s.attempts[id].openId
            && (WasRefused(Advanced(s, id, token), id) ==> s.attempts[id].pc.CreatingPlayer? || WasRefused(s, id))
            && (after.pc.CreatingPlayer? ==>
                  s.attempts[id].pc.LookingUp? && GetByOpenId(s.accounts, s.attempts[id].openId).Err?)
  {
    match s.attempts[id].pc
    case Naming(player) => OwnersStay(s.accounts, Updating(player));
    case Tokening(player) => OwnersStay(s.accounts, Updating(player.(token := token)));
    case _ =>
  }

  /** Apart from the create call no repository call makes or unmakes a player. */
  lemma OthersCreateNobody(s: System, id: LoginId, token: string)
    requires id in s.attempts && !s.attempts[id].pc.CreatingPlayer?
    ensures Advanced(s, id, token).creators == s.creators
    ensures Advanced(s, id, token).accounts.players.Keys == s.accounts.players.Keys
  {
  }

  lemma AdvanceKeepsCreators(s: System, id: LoginId, token: string)
    requires LoginInv(s) && CreatorsRight(s) && id in s.attempts
    ensures CreatorsRight(Advanced(s, id, token))
  {
    var attempt := s.attempts[id];
    assert AttemptRight(s.accounts, attempt);
    if attempt.pc.CreatingPlayer? {
      CreatingKeepsCreators(s, id, token);
    } else {
      OnlyCreateIsRefused(s, id, token);
      OthersCreateNobody(s, id, token);
      AdvanceKeepsIdentities(s, id, token);
      OtherStepsKeepCreators(s, Advanced(s, id, token));
    }
  }

  lemma StepKeepsCreators(s: System, action: Action)
    requires LoginInv(s) && CreatorsRight(s)
    ensures CreatorsRight(Step(s, action))
  {
    if action.Advance? {
      if action.id in s.attempts {
        AdvanceKeepsCreators(s, action.id, action.token);
      }
    } else {
      OtherStepsKeepCreators(s, Step(s, action));
    }
  }

  lemma {:induction false} CreatorsAlways(actions: seq<Action>)
    ensures CreatorsRight(Run(actions))
  {
    if actions != [] {
      LoginInvAlways(actions[..|actions| - 1]);
      CreatorsAlways(actions[..|actions| - 1]);
      StepKeepsCreators(Run(actions[..|actions| - 1]), actions[|actions| - 1]);
    }
  }

  /** A login that has looked its identity up and found nobody. */
  predicate FoundNobody(s: System, id: LoginId) {
    id in s.attempts && (s.attempts[id].pc.CreatingPlayer? || WasRefused(s, id))
  }

  /** A step either finds nobody for this login, or leaves it as found before. */
  lemma StepFindsNobody(s: System, action: Action, id: LoginId)
    requires LoginInv(s) && FoundNobody(Step(s, action), id)
    ensures id in s.attempts && s.attempts[id].openId == Step(s, action).attempts[id].openId
    ensures FoundNobody(s, id)
            || (Step(s, action).attempts[id].pc.CreatingPlayer? && Step(s, action).accounts == s.accounts
                && GetByOpenId(s.accounts, s.attempts[id].openId).Err?)
  {
    if action.Advance? && action.id == id && id in s.attempts {
      assert AttemptRight(s.accounts, s.attempts[id]);
      OnlyCreateIsRefused(s, id, action.token);
    }
  }

  /** The moment at which a login that went on to create its player had looked the identity up and found nobody. */
  lemma {:induction false} LookedBefore(actions: seq<Action>, id: LoginId) returns (k: nat)
    requires FoundNobody(Run(actions), id)
    ensures k <= |actions|
    ensures var s := Run(actions[..k]);
            && id in s.attempts && s.attempts[id].pc.CreatingPlayer?
            && forall uid :: !Owns(s.accounts, uid, Run(actions).attempts[id].openId)
  {
    assert actions != [];
    var n := |actions| - 1;
    var s := Run(actions[..n]);
    LoginInvAlways(actions[..n]);
    StepFindsNobody(s, actions[n], id);
    if FoundNobody(s, id) {
      k := LookedBefore(actions[..n], id);
      assert actions[..n][..k] == actions[..k];
    } else {
      k := |actions|;
      assert actions[..k] == actions;
      LookupFinds(s.accounts, s.attempts[id].openId);
    }
  }

  /**
   The repository refuses a login only through a race, and then another login won it: when this one looked its identity
   up nobody had it, by now somebody does, and that player was created by another login for the same identity.
   */
  lemma RefusedOnlyByRace(actions: seq<Action>, id: LoginId, error: AccountError) returns (k: nat, winner: LoginId)
    requires id in Run(actions).attempts && Run(actions).attempts[id].pc == Done(Err(Refused(error)))
    ensures var s := Run(actions);
            var openId := s.attempts[id].openId;
            && error == OpenIdTaken
            && k <= |actions| && id in Run(actions[..k]).attempts && Run(actions[..k]).attempts[id].pc == CreatingPlayer
            && (forall uid :: !Owns(Run(actions[..k]).accounts, uid, openId))
            && winner != id && Created(s, winner, openId)
  {
    LoginInvAlways(actions);
    CreatorsAlways(actions);
    var s := Run(actions);
    assert AttemptRight(s.accounts, s.attempts[id]);
    assert WasRefused(s, id);
    k := LookedBefore(actions, id);
    var uid :| uid in s.accounts.players && Owns(s.accounts, uid, s.attempts[id].openId);
    winner := s.creators[uid];
  }
}
