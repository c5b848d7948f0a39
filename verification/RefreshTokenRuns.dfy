// Refresh-token rotation over whole runs: the invariant, and what replay, reuse detection,
// logout and password changes guarantee in every continuation (section 4.14.2 of RFC 9700).
module RefreshTokenRuns {
  import opened Common
  import opened Hashing
  import opened RefreshTokens

  // ---- every reachable state ----

  lemma RotateKeepsInv(cfg: Config, s: State, presented: string, now: Time, newId: TokenId)
    requires Inv(cfg.secret, s) && newId !in s.issued && IsIdText(newId)
    ensures Inv(cfg.secret, Rotate(cfg, s, presented, now, newId).0)
  {
    var found := FindByHash(s.tokens, HashRefreshToken(cfg.secret, presented));
    if found.Some? {
      RotateFoundKeepsInv(cfg, s, found.value, now, newId);
    }
  }

  lemma RotateFoundKeepsInv(cfg: Config, s: State, id: TokenId, now: Time, newId: TokenId)
    requires Inv(cfg.secret, s) && id in s.tokens && newId !in s.issued && IsIdText(newId)
    ensures Inv(cfg.secret, RotateFound(cfg, s, id, now, newId).0)
  {
    if s.tokens[id].Live() {
      ReplaceKeepsInv(cfg, s, id, now, newId);
    } else {
      RevokeKeepsInv(cfg.secret, s, s.tokens[id].familyId, now);
    }
  }

  lemma ReplaceKeepsInv(cfg: Config, s: State, id: TokenId, now: Time, newId: TokenId)
    requires Inv(cfg.secret, s) && id in s.tokens && s.tokens[id].Live() && newId !in s.issued && IsIdText(newId)
    ensures var tokens := Replace(cfg, s.tokens, id, now, newId);
            Inv(cfg.secret, s.(tokens := tokens, issued := Record(s.issued, newId, tokens[newId])))
  {
    RotationKeepsChains(cfg, s, id, now, newId);
  }

  lemma StepKeepsInv(cfg: Config, s: State, op: Op)
    requires Inv(cfg.secret, s) && FreshFor(s, op)
    ensures Inv(cfg.secret, Step(cfg, s, op))
  {
    match op
    case IssueOp(user, now, newId) => IssueKeepsInv(cfg, s, user, now, newId);
    case RotateOp(presented, now, newId) => RotateKeepsInv(cfg, s, presented, now, newId);
    case LogoutOp(presented) =>
      var hash := HashRefreshToken(cfg.secret, presented);
      RemoveKeepsInv(cfg.secret, s, set id | id in s.tokens && s.tokens[id].tokenHash == hash);
    case DropUserTokensOp(user) => RemoveKeepsInv(cfg.secret, s, TokensOf(s.tokens, user));
    case PurgeExpiredOp(now) =>
      RemoveKeepsInv(cfg.secret, s, set id | id in s.tokens && s.tokens[id].expiresAt <= now);
    case SetActiveOp(user, active) =>
    case RemoveUserOp(user) =>
      RemoveKeepsInv(cfg.secret, s.(users := s.users - {user}), TokensOf(s.tokens, user));
  }

  lemma {:induction false} RunKeepsInv(cfg: Config, s: State, ops: seq<Op>)
    requires Inv(cfg.secret, s) && ValidRun(cfg, s, ops)
    ensures Inv(cfg.secret, Run(cfg, s, ops))
    decreases |ops|
  {
    if ops != [] {
      StepKeepsInv(cfg, s, ops[0]);
      RunKeepsInv(cfg, Step(cfg, s, ops[0]), ops[1..]);
    }
  }

  lemma EmptyInv(secret: Secret)
    ensures Inv(secret, Empty)
  {
  }

  /** A walk along successor pointers. */
  ghost predicate IsWalk(tokens: Tokens, path: seq<TokenId>) {
    forall i :: 0 <= i < |path| - 1 ==> path[i] in tokens && tokens[path[i]].replacedBy == Some(path[i + 1])
  }

  lemma {:induction false} WalkOrdered(secret: Secret, s: State, path: seq<TokenId>)
    requires Inv(secret, s) && IsWalk(s.tokens, path) && |path| >= 2
    ensures path[0] in s.tokens && path[|path| - 1] in s.tokens
    ensures path[0] in s.issued && path[|path| - 1] in s.issued
    ensures s.issued[path[0]].serial < s.issued[path[|path| - 1]].serial
    ensures s.tokens[path[0]].familyId == s.tokens[path[|path| - 1]].familyId
    ensures s.tokens[path[0]].userId == s.tokens[path[|path| - 1]].userId
  {
    assert SuccessorOk(s.tokens, s.issued, path[0]);
    assert path[1] in s.tokens;
    assert ParentStored(s.tokens, s.issued, path[1]);
    assert RowOk(secret, s.tokens, s.issued, path[0]) && RowOk(secret, s.tokens, s.issued, path[1]);
    assert OriginOk(s.issued, path[0]) && OriginOk(s.issued, path[1]);
    if |path| > 2 {
      WalkOrdered(secret, s, path[1..]);
    }
  }

  /** In every reachable state the successor pointers form disjoint acyclic chains: no walk
      returns to its start, no two tokens share a successor, links are answered both ways,
      a chain stays in one family and with one user, whoever has a successor is consumed, and
      a family has at most one live token. */
  lemma ChainsInEveryReachableState(cfg: Config, ops: seq<Op>)
    requires ValidRun(cfg, Empty, ops)
    ensures var tokens := Run(cfg, Empty, ops).tokens;
      && (forall path :: IsWalk(tokens, path) && |path| >= 2 ==> path[0] != path[|path| - 1])
      && (forall a, b ::
            (a in tokens && b in tokens && tokens[a].replacedBy.Some? && tokens[a].replacedBy == tokens[b].replacedBy)
            ==> a == b)
      && (forall a, x :: a in tokens && x in tokens ==> (tokens[a].replacedBy == Some(x) <==> tokens[x].parent == Some(a)))
      && (forall a :: a in tokens && tokens[a].replacedBy.Some? ==>
            && tokens[a].consumedAt.Some? && tokens[a].replacedBy.value in tokens
            && tokens[tokens[a].replacedBy.value].familyId == tokens[a].familyId
            && tokens[tokens[a].replacedBy.value].userId == tokens[a].userId)
      && OneLivePerFamily(tokens)
  {
    EmptyInv(cfg.secret);
    RunKeepsInv(cfg, Empty, ops);
    Chains(cfg, Run(cfg, Empty, ops));
  }

  lemma Chains(cfg: Config, s: State)
    requires Inv(cfg.secret, s)
    ensures forall path :: IsWalk(s.tokens, path) && |path| >= 2 ==> path[0] != path[|path| - 1]
    ensures forall a :: a in s.tokens ==> SuccessorOk(s.tokens, s.issued, a) && ParentOk(s.tokens, a)
    ensures forall a :: a in s.tokens && s.tokens[a].replacedBy.Some? ==>
      s.tokens[a].replacedBy.value in s.tokens && s.tokens[s.tokens[a].replacedBy.value].userId == s.tokens[a].userId
  {
    forall path | IsWalk(s.tokens, path) && |path| >= 2 ensures path[0] != path[|path| - 1] {
      WalkOrdered(cfg.secret, s, path);
    }
    forall a | a in s.tokens && s.tokens[a].replacedBy.Some?
      ensures s.tokens[a].replacedBy.value in s.tokens && s.tokens[s.tokens[a].replacedBy.value].userId == s.tokens[a].userId
    {
      SuccessorSameUser(cfg, s, a);
    }
  }

  lemma SuccessorSameUser(cfg: Config, s: State, a: TokenId)
    requires Inv(cfg.secret, s) && a in s.tokens && s.tokens[a].replacedBy.Some?
    ensures s.tokens[a].replacedBy.value in s.tokens && s.tokens[s.tokens[a].replacedBy.value].userId == s.tokens[a].userId
  {
    WalkOrdered(cfg.secret, s, [a, s.tokens[a].replacedBy.value]);
  }

  // ---- a family without a live token stays without one ----

  ghost predicate Dead(s: State, family: TokenId) {
    forall id :: id in s.tokens && s.tokens[id].familyId == family ==> !s.tokens[id].Live()
  }

  lemma RunGrowsHistory(cfg: Config, s: State, op: Op)
    requires FreshFor(s, op)
    ensures forall id :: id in s.issued ==> id in Step(cfg, s, op).issued && Step(cfg, s, op).issued[id] == s.issued[id]
  {
  }

  lemma StepKeepsDead(cfg: Config, s: State, op: Op, family: TokenId)
    requires Inv(cfg.secret, s) && FreshFor(s, op) && family in s.issued && Dead(s, family)
    ensures Dead(Step(cfg, s, op), family)
  {
    match op
    case IssueOp(user, now, newId) =>
    case RotateOp(presented, now, newId) =>
      var found := FindByHash(s.tokens, HashRefreshToken(cfg.secret, presented));
      if found.Some? {
        RotationKeepsDead(cfg, s, found.value, now, newId, family);
      }
    case LogoutOp(presented) =>
      var hash := HashRefreshToken(cfg.secret, presented);
      RemovalKeepsDead(s, (set id | id in s.tokens && s.tokens[id].tokenHash == hash), family);
    case DropUserTokensOp(user) => RemovalKeepsDead(s, TokensOf(s.tokens, user), family);
    case PurgeExpiredOp(now) => RemovalKeepsDead(s, (set id | id in s.tokens && s.tokens[id].expiresAt <= now), family);
    case SetActiveOp(user, active) =>
    case RemoveUserOp(user) => RemovalKeepsDead(s.(users := s.users - {user}), TokensOf(s.tokens, user), family);
  }

  lemma RotationKeepsDead(cfg: Config, s: State, id: TokenId, now: Time, newId: TokenId, family: TokenId)
    requires id in s.tokens && newId !in s.issued && family in s.issued && Dead(s, family)
    ensures Dead(RotateFound(cfg, s, id, now, newId).0, family)
  {
  }

  lemma RemovalKeepsDead(s: State, gone: set<TokenId>, family: TokenId)
    requires Dead(s, family)
    ensures Dead(s.(tokens := Remove(s.tokens, gone)), family)
  {
  }

  lemma {:induction false} RunKeepsDead(cfg: Config, s: State, ops: seq<Op>, family: TokenId)
    requires Inv(cfg.secret, s) && ValidRun(cfg, s, ops) && family in s.issued && Dead(s, family)
    ensures Dead(Run(cfg, s, ops), family)
    decreases |ops|
  {
    if ops != [] {
      StepKeepsDead(cfg, s, ops[0], family);
      StepKeepsInv(cfg, s, ops[0]);
      RunGrowsHistory(cfg, s, ops[0]);
      RunKeepsDead(cfg, Step(cfg, s, ops[0]), ops[1..], family);
    }
  }

  lemma {:induction false} RunKeepsOrigins(cfg: Config, s: State, ops: seq<Op>, id: TokenId)
    requires ValidRun(cfg, s, ops) && id in s.issued
    ensures id in Run(cfg, s, ops).issued && Run(cfg, s, ops).issued[id] == s.issued[id]
    decreases |ops|
  {
    if ops != [] {
      RunGrowsHistory(cfg, s, ops[0]);
      RunKeepsOrigins(cfg, Step(cfg, s, ops[0]), ops[1..], id);
    }
  }

  /** Once its family is dead, a token is refused in every continuation, for ever. */
  lemma DeadFamilyIsRefusedForEver(cfg: Config, s: State, ops: seq<Op>, id: TokenId, now: Time, newId: TokenId)
    requires Inv(cfg.secret, s) && ValidRun(cfg, s, ops)
    requires id in s.issued && Dead(s, s.issued[id].familyId)
    ensures Rotate(cfg, Run(cfg, s, ops), BuildRefreshSessionToken(cfg.secret, id), now, newId).1.Rejected?
  {
    assert OriginOk(s.issued, id);
    var family := s.issued[id].familyId;
    RunKeepsInv(cfg, s, ops);
    RunKeepsDead(cfg, s, ops, family);
    RunKeepsOrigins(cfg, s, ops, id);
    var s' := Run(cfg, s, ops);
    RotatePresented(cfg, s', id, now, newId);
    if id in s'.tokens {
      assert RowOk(cfg.secret, s'.tokens, s'.issued, id) && SuccessorOk(s'.tokens, s'.issued, id);
    }
  }

  /** Reuse detection, logout with the live token, and dropping a user's tokens (password reset,
      change or set) each leave the family dead. */
  lemma ReuseKillsFamily(cfg: Config, s: State, id: TokenId, now: Time, newId: TokenId)
    requires Inv(cfg.secret, s) && id in s.tokens
    requires RotateFound(cfg, s, id, now, newId).1 == Rejected(ReuseDetected)
    ensures Dead(RotateFound(cfg, s, id, now, newId).0, s.issued[id].familyId)
    ensures forall x :: x in s.tokens && s.tokens[x].familyId == s.issued[id].familyId ==>
              RotateFound(cfg, s, id, now, newId).0.tokens[x].revokedAt.Some?
  {
  }

  lemma LogoutKillsFamily(cfg: Config, s: State, id: TokenId)
    requires Inv(cfg.secret, s) && id in s.tokens && s.tokens[id].Live()
    ensures Dead(Logout(cfg, s, BuildRefreshSessionToken(cfg.secret, id)), s.tokens[id].familyId)
  {
  }

  /** Logging out deletes the row of the presented token and no other. */
  lemma LogoutRemovesOne(cfg: Config, s: State, id: TokenId)
    requires Inv(cfg.secret, s) && id in s.tokens
    ensures Logout(cfg, s, BuildRefreshSessionToken(cfg.secret, id)).tokens == Remove(s.tokens, {id})
  {
    var presented := BuildRefreshSessionToken(cfg.secret, id);
    var hash := HashRefreshToken(cfg.secret, presented);
    forall x | x in s.tokens ensures s.tokens[x].tokenHash == hash <==> x == id {
      assert RowOk(cfg.secret, s.tokens, s.issued, x) && RowOk(cfg.secret, s.tokens, s.issued, id);
      assert OriginOk(s.issued, x) && OriginOk(s.issued, id);
      RefreshTokenHashInjective(cfg.secret, presented, BuildRefreshSessionToken(cfg.secret, x));
      SessionTokenInjective(cfg.secret, id, x);
    }
    assert (set x | x in s.tokens && s.tokens[x].tokenHash == hash) == {id};
  }

  /** Logging out leaves the family without a live token if and only if the token was live itself
      or there was no live one before. */
  lemma LogoutEndsIff(cfg: Config, s: State, id: TokenId)
    requires Inv(cfg.secret, s) && id in s.tokens
    ensures Dead(Logout(cfg, s, BuildRefreshSessionToken(cfg.secret, id)), s.tokens[id].familyId)
       <==> s.tokens[id].Live() || Dead(s, s.tokens[id].familyId)
  {
    LogoutRemovesOne(cfg, s, id);
    OthersStay(s.tokens, id);
  }

  lemma OthersStay(tokens: Tokens, id: TokenId)
    requires id in tokens
    ensures Remove(tokens, {id}).Keys == tokens.Keys - {id}
    ensures forall x :: x in tokens && x != id ==>
      var t := Remove(tokens, {id})[x];
      && t.tokenHash == tokens[x].tokenHash && t.familyId == tokens[x].familyId && t.userId == tokens[x].userId
      && t.expiresAt == tokens[x].expiresAt && t.consumedAt == tokens[x].consumedAt && t.revokedAt == tokens[x].revokedAt
  {
  }

  /** In the other case, a logout with a token that was already rotated, the live token of the
      family goes on working. */
  lemma LogoutLeavesSuccessor(cfg: Config, s: State, id: TokenId, x: TokenId, now: Time, newId: TokenId)
    requires Inv(cfg.secret, s) && id in s.tokens && x in s.tokens && newId !in s.issued && IsIdText(newId)
    requires !s.tokens[id].Live() && s.tokens[x].familyId == s.tokens[id].familyId
    requires s.tokens[x].Live() && now <= s.tokens[x].expiresAt && IsActive(s.users, s.tokens[x].userId)
    ensures Rotate(cfg, Logout(cfg, s, BuildRefreshSessionToken(cfg.secret, id)), BuildRefreshSessionToken(cfg.secret, x), now, newId).1
         == Granted(BuildRefreshSessionToken(cfg.secret, newId))
  {
    LogoutRemovesOne(cfg, s, id);
    OthersStay(s.tokens, id);
    RemoveKeepsInv(cfg.secret, s, {id});
    RotationEffect(cfg, Logout(cfg, s, BuildRefreshSessionToken(cfg.secret, id)), x, now, newId);
  }

  lemma DroppingTokensKillsFamilies(cfg: Config, s: State, user: UserId, family: TokenId)
    requires Inv(cfg.secret, s) && family in s.issued && s.issued[family].userId == user
    ensures Dead(DropUserTokens(s, user), family)
  {
    forall id | id in s.tokens && s.tokens[id].familyId == family ensures s.tokens[id].userId == user {
      assert RowOk(cfg.secret, s.tokens, s.issued, id) && OriginOk(s.issued, id);
    }
  }

  /** After a password reset, change or set, no refresh token the user ever held is accepted again. */
  lemma PasswordChangeEndsEverySession(cfg: Config, s: State, user: UserId, ops: seq<Op>, id: TokenId, now: Time, newId: TokenId)
    requires Inv(cfg.secret, s) && id in s.issued && s.issued[id].userId == user
    requires ValidRun(cfg, DropUserTokens(s, user), ops)
    ensures Rotate(cfg, Run(cfg, DropUserTokens(s, user), ops), BuildRefreshSessionToken(cfg.secret, id), now, newId).1.Rejected?
  {
    assert OriginOk(s.issued, id);
    RemoveKeepsInv(cfg.secret, s, TokensOf(s.tokens, user));
    DroppingTokensKillsFamilies(cfg, s, user, s.issued[id].familyId);
    DeadFamilyIsRefusedForEver(cfg, DropUserTokens(s, user), ops, id, now, newId);
  }

  /** After a detected reuse, no token of the family is accepted again, the thief's included. */
  lemma ReuseEndsTheFamily(cfg: Config, s: State, id: TokenId, now: Time, newId: TokenId, ops: seq<Op>,
                           other: TokenId, later: Time, newId': TokenId)
    requires Inv(cfg.secret, s) && id in s.tokens && newId !in s.issued && IsIdText(newId)
    requires RotateFound(cfg, s, id, now, newId).1 == Rejected(ReuseDetected)
    requires other in s.issued && s.issued[other].familyId == s.issued[id].familyId
    requires ValidRun(cfg, RotateFound(cfg, s, id, now, newId).0, ops)
    ensures var s' := Run(cfg, RotateFound(cfg, s, id, now, newId).0, ops);
            Rotate(cfg, s', BuildRefreshSessionToken(cfg.secret, other), later, newId').1.Rejected?
  {
    ReuseKillsFamily(cfg, s, id, now, newId);
    RotateFoundKeepsInv(cfg, s, id, now, newId);
    assert RotateFound(cfg, s, id, now, newId).0.issued == s.issued;
    DeadFamilyIsRefusedForEver(cfg, RotateFound(cfg, s, id, now, newId).0, ops, other, later, newId');
  }

  // ---- one successor per token ----

  /** This step stores a new token whose parent is `id`. */
  ghost predicate Creates(cfg: Config, s: State, op: Op, id: TokenId) {
    exists x :: x in Step(cfg, s, op).tokens && x !in s.tokens && Step(cfg, s, op).tokens[x].parent == Some(id)
  }

  ghost function Creations(cfg: Config, s: State, ops: seq<Op>, id: TokenId): nat
    decreases |ops|
  {
    if ops == [] then 0
    else (if Creates(cfg, s, ops[0], id) then 1 else 0) + Creations(cfg, Step(cfg, s, ops[0]), ops[1..], id)
  }

  /** Issued once, and since consumed or deleted. */
  ghost predicate Spent(s: State, id: TokenId) {
    id in s.issued && (id in s.tokens ==> s.tokens[id].consumedAt.Some?)
  }

  lemma StepKeepsSpent(cfg: Config, s: State, op: Op, id: TokenId)
    requires FreshFor(s, op) && Spent(s, id)
    ensures Spent(Step(cfg, s, op), id)
    ensures !Creates(cfg, s, op, id)
  {
  }

  lemma CreationSpends(cfg: Config, s: State, op: Op, id: TokenId)
    requires Inv(cfg.secret, s) && FreshFor(s, op) && Creates(cfg, s, op, id)
    ensures Spent(Step(cfg, s, op), id)
  {
    OnlyRotationCreates(cfg, s, op, id);
    var found := FindByHash(s.tokens, HashRefreshToken(cfg.secret, op.presented));
    StoredIsIssued(cfg.secret, s);
    RotationSpends(cfg, s, found.value, op.now, op.newId, id);
  }

  lemma OnlyRotationCreates(cfg: Config, s: State, op: Op, id: TokenId)
    requires Creates(cfg, s, op, id)
    ensures op.RotateOp? && FindByHash(s.tokens, HashRefreshToken(cfg.secret, op.presented)).Some?
  {
  }

  lemma RotationSpends(cfg: Config, s: State, found: TokenId, now: Time, newId: TokenId, id: TokenId)
    requires found in s.tokens && found in s.issued && newId !in s.issued
    requires var s' := RotateFound(cfg, s, found, now, newId).0;
      exists x :: x in s'.tokens && x !in s.tokens && s'.tokens[x].parent == Some(id)
    ensures Spent(RotateFound(cfg, s, found, now, newId).0, id)
  {
  }

  lemma {:induction false} SpentCreatesNothing(cfg: Config, s: State, ops: seq<Op>, id: TokenId)
    requires ValidRun(cfg, s, ops) && Spent(s, id)
    ensures Creations(cfg, s, ops, id) == 0
    decreases |ops|
  {
    if ops != [] {
      StepKeepsSpent(cfg, s, ops[0], id);
      SpentCreatesNothing(cfg, Step(cfg, s, ops[0]), ops[1..], id);
    }
  }

  /** Over any run, replays and races included, a token gets at most one successor. */
  lemma {:induction false} AtMostOneSuccessor(cfg: Config, s: State, ops: seq<Op>, id: TokenId)
    requires Inv(cfg.secret, s) && ValidRun(cfg, s, ops)
    ensures Creations(cfg, s, ops, id) <= 1
    decreases |ops|
  {
    if ops != [] {
      var s' := Step(cfg, s, ops[0]);
      StepKeepsInv(cfg, s, ops[0]);
      if Creates(cfg, s, ops[0], id) {
        CreationSpends(cfg, s, ops[0], id);
        SpentCreatesNothing(cfg, s', ops[1..], id);
      } else {
        AtMostOneSuccessor(cfg, s', ops[1..], id);
      }
    }
  }

  // ---- replay ----

  /** T was rotated to X at time `at`; a token deleted since stays deleted. */
  ghost predicate WasRotated(s: State, t: TokenId, x: TokenId, at: Time) {
    && t in s.issued && x in s.issued
    && (t in s.tokens ==> s.tokens[t].consumedAt == Some(at))
    && (t in s.tokens && x in s.tokens ==> s.tokens[t].replacedBy == Some(x))
    && (t in s.tokens && x !in s.tokens ==> s.tokens[t].replacedBy == None)
  }

  lemma StepKeepsRotated(cfg: Config, s: State, op: Op, t: TokenId, x: TokenId, at: Time)
    requires FreshFor(s, op) && WasRotated(s, t, x, at)
    ensures WasRotated(Step(cfg, s, op), t, x, at)
  {
  }

  lemma {:induction false} RunKeepsRotated(cfg: Config, s: State, ops: seq<Op>, t: TokenId, x: TokenId, at: Time)
    requires ValidRun(cfg, s, ops) && WasRotated(s, t, x, at)
    ensures WasRotated(Run(cfg, s, ops), t, x, at)
    decreases |ops|
  {
    if ops != [] {
      StepKeepsRotated(cfg, s, ops[0], t, x, at);
      RunKeepsRotated(cfg, Step(cfg, s, ops[0]), ops[1..], t, x, at);
    }
  }

  /** The replay window, seen from the outside: T was rotated at `at` and X returned. */
  ghost predicate InReplayWindow(s: State, x: TokenId, at: Time, now: Time) {
    && now <= at + 5 * SECOND
    && x in s.tokens && s.tokens[x].consumedAt.None? && s.tokens[x].revokedAt.None? && now <= s.tokens[x].expiresAt
  }

  /** T, consumed at `at` in favour of X, is presented at `now`: inside the window the answer is
      the identical token X and nothing changes, if and only if the user is still active; outside
      the window the whole family is revoked and nothing else changes. */
  ghost predicate ReplayAnswer(cfg: Config, s: State, t: TokenId, x: TokenId, at: Time, now: Time, after: State, outcome: Outcome)
    requires t in s.tokens
  {
    if InReplayWindow(s, x, at, now) then
      && after == s
      && outcome == (if IsActive(s.users, s.tokens[t].userId)
                     then Granted(BuildRefreshSessionToken(cfg.secret, x)) else Rejected(UserInactive))
    else
      && outcome == Rejected(ReuseDetected)
      && after == s.(tokens := RevokeFamily(s.tokens, s.tokens[t].familyId, now))
  }

  lemma ReplayAnswered(cfg: Config, s: State, t: TokenId, x: TokenId, at: Time, now: Time, newId: TokenId)
    requires WasRotated(s, t, x, at)
    requires t in s.tokens && s.tokens[t].revokedAt.None? && now <= s.tokens[t].expiresAt
    ensures var (after, outcome) := RotateFound(cfg, s, t, now, newId);
            ReplayAnswer(cfg, s, t, x, at, now, after, outcome)
  {
  }

  lemma RotationRecorded(cfg: Config, s: State, t: TokenId, at: Time, x: TokenId)
    requires Inv(cfg.secret, s) && t in s.tokens && x !in s.issued && IsIdText(x)
    requires RotateFound(cfg, s, t, at, x).1.Granted? && s.tokens[t].Live()
    ensures Inv(cfg.secret, RotateFound(cfg, s, t, at, x).0)
    ensures WasRotated(RotateFound(cfg, s, t, at, x).0, t, x, at)
  {
    StoredIsIssued(cfg.secret, s);
    RotationKeepsChains(cfg, s, t, at, x);
  }

  /** Replay is idempotent: after rotating T to X and any further run, presenting T while it is
      stored, unrevoked and unexpired is answered as `ReplayAnswer` says. */
  lemma ReplayIsIdempotent(cfg: Config, s: State, t: TokenId, at: Time, x: TokenId, ops: seq<Op>, now: Time, newId: TokenId)
    requires Inv(cfg.secret, s) && t in s.tokens && x !in s.issued && IsIdText(x)
    requires RotateFound(cfg, s, t, at, x).1.Granted? && s.tokens[t].Live()
    requires ValidRun(cfg, RotateFound(cfg, s, t, at, x).0, ops)
    requires var s' := Run(cfg, RotateFound(cfg, s, t, at, x).0, ops);
             t in s'.tokens && s'.tokens[t].revokedAt.None? && now <= s'.tokens[t].expiresAt
    ensures var s' := Run(cfg, RotateFound(cfg, s, t, at, x).0, ops);
            var (after, outcome) := Rotate(cfg, s', BuildRefreshSessionToken(cfg.secret, t), now, newId);
            ReplayAnswer(cfg, s', t, x, at, now, after, outcome)
  {
    var s1 := RotateFound(cfg, s, t, at, x).0;
    RotationRecorded(cfg, s, t, at, x);
    RunKeepsRotated(cfg, s1, ops, t, x, at);
    RunKeepsInv(cfg, s1, ops);
    var s' := Run(cfg, s1, ops);
    assert IsIdText(t) by { IssuedIdText(cfg.secret, s', t); }
    RotatePresented(cfg, s', t, now, newId);
    ReplayAnswered(cfg, s', t, x, at, now, newId);
  }

  lemma IssuedIdText(secret: Secret, s: State, id: TokenId)
    requires Inv(secret, s) && id in s.tokens
    ensures IsIdText(id) && id in s.issued
  {
    assert RowOk(secret, s.tokens, s.issued, id) && OriginOk(s.issued, id);
  }

  /** The table after rotating t to x: the old row is consumed and points to the new one, the new
      row is the family's only live token, of the same user, with a full lifetime, and no other
      row changes. */
  ghost predicate Rotated(cfg: Config, before: Tokens, after: Tokens, t: TokenId, x: TokenId, now: Time)
    requires t in before
  {
    && after.Keys == before.Keys + {x} && x !in before
    && after[t] == before[t].(consumedAt := Some(now), replacedBy := Some(x))
    && after[x].Live() && after[x].parent == Some(t)
    && after[x].expiresAt == now + cfg.refreshExpiryDays * DAY
    && after[x].familyId == before[t].familyId && after[x].userId == before[t].userId
    && (forall y :: y in before && y != t ==> after[y] == before[y])
    && (forall y :: y in after && after[y].familyId == before[t].familyId && after[y].Live() ==> y == x)
  }

  lemma ReplaceRotates(cfg: Config, s: State, t: TokenId, now: Time, x: TokenId)
    requires Inv(cfg.secret, s) && t in s.tokens && x !in s.issued && IsIdText(x) && s.tokens[t].Live()
    ensures Rotated(cfg, s.tokens, Replace(cfg, s.tokens, t, now, x), t, x, now)
  {
  }

  /** Presenting a live token rotates it if and only if it is unexpired and its user active;
      otherwise nothing changes. */
  lemma RotationEffect(cfg: Config, s: State, t: TokenId, now: Time, x: TokenId)
    requires Inv(cfg.secret, s) && t in s.tokens && x !in s.issued && IsIdText(x) && s.tokens[t].Live()
    ensures var (s', outcome) := Rotate(cfg, s, BuildRefreshSessionToken(cfg.secret, t), now, x);
            if now <= s.tokens[t].expiresAt && IsActive(s.users, s.tokens[t].userId) then
              && outcome == Granted(BuildRefreshSessionToken(cfg.secret, x))
              && Rotated(cfg, s.tokens, s'.tokens, t, x, now) && s'.users == s.users
            else s' == s && outcome.Rejected?
  {
    IssuedIdText(cfg.secret, s, t);
    RotatePresented(cfg, s, t, now, x);
    ReplaceRotates(cfg, s, t, now, x);
  }

  /** Logging out with the live token ends the session: no token of the family is accepted again. */
  lemma LogoutEndsTheSession(cfg: Config, s: State, id: TokenId, ops: seq<Op>, other: TokenId, now: Time, newId: TokenId)
    requires Inv(cfg.secret, s) && id in s.tokens && s.tokens[id].Live()
    requires other in s.issued && s.issued[other].familyId == s.tokens[id].familyId
    requires ValidRun(cfg, Logout(cfg, s, BuildRefreshSessionToken(cfg.secret, id)), ops)
    ensures var s' := Run(cfg, Logout(cfg, s, BuildRefreshSessionToken(cfg.secret, id)), ops);
            Rotate(cfg, s', BuildRefreshSessionToken(cfg.secret, other), now, newId).1.Rejected?
  {
    var presented := BuildRefreshSessionToken(cfg.secret, id);
    var hash := HashRefreshToken(cfg.secret, presented);
    LogoutKillsFamily(cfg, s, id);
    RemoveKeepsInv(cfg.secret, s, set x | x in s.tokens && s.tokens[x].tokenHash == hash);
    DeadFamilyIsRefusedForEver(cfg, Logout(cfg, s, presented), ops, other, now, newId);
  }

  /** Theft is contained: a token that was rotated and is presented again after the five-second
      window, by whoever holds the copy, ends the family for both parties and for ever. */
  lemma StolenTokenEndsTheFamily(cfg: Config, s: State, t: TokenId, at: Time, x: TokenId, ops: seq<Op>, now: Time, newId: TokenId,
                                 later: seq<Op>, other: TokenId, time: Time, newId': TokenId)
    requires Inv(cfg.secret, s) && t in s.tokens && x !in s.issued && IsIdText(x)
    requires RotateFound(cfg, s, t, at, x).1.Granted? && s.tokens[t].Live()
    requires ValidRun(cfg, RotateFound(cfg, s, t, at, x).0, ops)
    requires var s' := Run(cfg, RotateFound(cfg, s, t, at, x).0, ops);
      && t in s'.tokens && s'.tokens[t].revokedAt.None? && at + 5 * SECOND < now <= s'.tokens[t].expiresAt
      && newId !in s'.issued && IsIdText(newId)
      && t in s'.issued && other in s'.issued && s'.issued[other].familyId == s'.issued[t].familyId
      && ValidRun(cfg, RotateFound(cfg, s', t, now, newId).0, later)
    ensures var s' := Run(cfg, RotateFound(cfg, s, t, at, x).0, ops);
            var s'' := Run(cfg, RotateFound(cfg, s', t, now, newId).0, later);
            Rotate(cfg, s'', BuildRefreshSessionToken(cfg.secret, other), time, newId').1.Rejected?
  {
    var s1 := RotateFound(cfg, s, t, at, x).0;
    RotationRecorded(cfg, s, t, at, x);
    RunKeepsRotated(cfg, s1, ops, t, x, at);
    RunKeepsInv(cfg, s1, ops);
    var s' := Run(cfg, s1, ops);
    ReplayAnswered(cfg, s', t, x, at, now, newId);
    ReuseEndsTheFamily(cfg, s', t, now, newId, later, other, time, newId');
  }

  /** How a string that is not rotated or replayed is refused; none of these changes anything. */
  lemma RefusalReasons(cfg: Config, s: State, presented: string, now: Time, newId: TokenId)
    requires Inv(cfg.secret, s)
    ensures var (s', outcome) := Rotate(cfg, s, presented, now, newId);
      && (outcome == Rejected(InvalidToken) <==>
            forall id :: id in s.tokens ==> presented != BuildRefreshSessionToken(cfg.secret, id))
      && (forall id :: id in s.tokens && presented == BuildRefreshSessionToken(cfg.secret, id) ==>
            && (outcome == Rejected(Revoked) <==> s.tokens[id].revokedAt.Some?)
            && (outcome == Rejected(Expired) <==> s.tokens[id].revokedAt.None? && now > s.tokens[id].expiresAt))
      && (outcome.Rejected? && outcome.reason != ReuseDetected ==> s' == s)
  {
    var found := FindByHash(s.tokens, HashRefreshToken(cfg.secret, presented));
    forall id | id in s.tokens && presented == BuildRefreshSessionToken(cfg.secret, id) ensures found == Some(id) {
      LookupExact(cfg, s, presented, id);
    }
    if found.Some? {
      LookupExact(cfg, s, presented, found.value);
    }
  }

  /** A new session is a family of its own with one live token of full lifetime. */
  lemma IssueStartsFamily(cfg: Config, s: State, user: UserId, now: Time, newId: TokenId)
    requires Inv(cfg.secret, s) && user in s.users && newId !in s.issued && IsIdText(newId)
    ensures var tokens := Issue(cfg, s, user, now, newId).tokens;
      && tokens.Keys == s.tokens.Keys + {newId} && newId !in s.tokens
      && tokens[newId].Live() && tokens[newId].userId == user && tokens[newId].parent.None?
      && tokens[newId].expiresAt == now + cfg.refreshExpiryDays * DAY
      && (forall x :: x in s.tokens ==> tokens[x] == s.tokens[x] && tokens[x].familyId != tokens[newId].familyId)
  {
    StoredIsIssued(cfg.secret, s);
    FamilyIsNew(cfg, s, newId);
    IssuedRow(cfg, s, user, now, newId);
  }

  lemma IssuedRow(cfg: Config, s: State, user: UserId, now: Time, newId: TokenId)
    requires user in s.users && newId !in s.tokens && forall x :: x in s.tokens ==> s.tokens[x].familyId != newId
    ensures var tokens := Issue(cfg, s, user, now, newId).tokens;
      && tokens.Keys == s.tokens.Keys + {newId}
      && tokens[newId].Live() && tokens[newId].userId == user && tokens[newId].parent.None?
      && tokens[newId].expiresAt == now + cfg.refreshExpiryDays * DAY
      && (forall x :: x in s.tokens ==> tokens[x] == s.tokens[x] && tokens[x].familyId != tokens[newId].familyId)
  {
  }

  lemma FamilyIsNew(cfg: Config, s: State, newId: TokenId)
    requires Inv(cfg.secret, s) && newId !in s.issued
    ensures forall x :: x in s.tokens ==> s.tokens[x].familyId != newId
  {
    forall x | x in s.tokens ensures s.tokens[x].familyId != newId {
      assert RowOk(cfg.secret, s.tokens, s.issued, x) && OriginOk(s.issued, x);
    }
  }
}
