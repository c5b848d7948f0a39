// src/auth/service.rs: refresh-token families, as transitions on the refresh_tokens table.
module RefreshTokens {
  import opened Common
  import opened Hashing

  type TokenId = string
  type UserId = nat

  datatype Token = Token(
    userId: UserId,
    familyId: TokenId,
    parent: Option<TokenId>,
    replacedBy: Option<TokenId>,
    tokenHash: string,
    expiresAt: Time,
    consumedAt: Option<Time>,
    revokedAt: Option<Time>
  ) {
    predicate Live() {
      consumedAt.None? && revokedAt.None?
    }
  }

  type Tokens = map<TokenId, Token>

  /** Where a token came from. The table forgets deleted tokens; this history does not. */
  datatype Origin = Origin(familyId: TokenId, userId: UserId, serial: nat)

  /** The rows the service works on, with the users' is_active flags, and the history of every
      id ever issued. */
  datatype State = State(tokens: Tokens, users: map<UserId, bool>, issued: map<TokenId, Origin>)

  datatype Config = Config(secret: Secret, refreshExpiryDays: nat)

  const IDEMPOTENT_WINDOW: int := 5 * SECOND

  datatype Reason = InvalidToken | Revoked | Expired | ReuseDetected | UserInactive

  datatype Outcome = Granted(refreshToken: string) | Rejected(reason: Reason)

  // ---- table operations ----

  ghost function FindByHash(tokens: Tokens, hash: string): (r: Option<TokenId>)
    ensures r.Some? ==> r.value in tokens && tokens[r.value].tokenHash == hash
    ensures r.None? ==> forall id :: id in tokens ==> tokens[id].tokenHash != hash
  {
    if exists id :: id in tokens && tokens[id].tokenHash == hash
    then var id :| id in tokens && tokens[id].tokenHash == hash; Some(id)
    else None
  }

  function RevokeFamily(tokens: Tokens, family: TokenId, now: Time): Tokens {
    map id | id in tokens ::
      if tokens[id].familyId == family && tokens[id].revokedAt.None?
      then tokens[id].(revokedAt := Some(now)) else tokens[id]
  }

  function Cut(link: Option<TokenId>, gone: set<TokenId>): Option<TokenId> {
    if link.Some? && link.value in gone then None else link
  }

  /** DELETE with the two ON DELETE SET NULL references. */
  function Remove(tokens: Tokens, gone: set<TokenId>): Tokens {
    map id | id in tokens && id !in gone ::
      tokens[id].(parent := Cut(tokens[id].parent, gone), replacedBy := Cut(tokens[id].replacedBy, gone))
  }

  function BuildRecord(cfg: Config, user: UserId, family: Option<TokenId>, parent: Option<TokenId>,
                       newId: TokenId, now: Time): Token {
    Token(user, if family.Some? then family.value else newId, parent, None,
          HashRefreshToken(cfg.secret, BuildRefreshSessionToken(cfg.secret, newId)),
          now + cfg.refreshExpiryDays * DAY, None, None)
  }

  function Record(issued: map<TokenId, Origin>, newId: TokenId, t: Token): map<TokenId, Origin> {
    issued[newId := Origin(t.familyId, t.userId, |issued|)]
  }

  predicate IsActive(users: map<UserId, bool>, user: UserId) {
    user in users && users[user]
  }

  // ---- the service functions, one transaction each ----

  /** A consumed token may be answered with its successor: a race within the window. */
  predicate Replayable(tokens: Tokens, t: Token, now: Time) {
    && t.consumedAt.Some? && now <= t.consumedAt.value + IDEMPOTENT_WINDOW
    && t.replacedBy.Some? && t.replacedBy.value in tokens
    && tokens[t.replacedBy.value].Live()
    && now <= tokens[t.replacedBy.value].expiresAt
  }

  function Replace(cfg: Config, tokens: Tokens, id: TokenId, now: Time, newId: TokenId): Tokens
    requires id in tokens
  {
    var t := tokens[id];
    tokens[id := t.(consumedAt := Some(now), replacedBy := Some(newId))]
          [newId := BuildRecord(cfg, t.userId, Some(t.familyId), Some(id), newId, now)]
  }

  function RotateFound(cfg: Config, s: State, id: TokenId, now: Time, newId: TokenId): (State, Outcome)
    requires id in s.tokens
  {
    var t := s.tokens[id];
    if t.revokedAt.Some? then (s, Rejected(Revoked))
    else if now > t.expiresAt then (s, Rejected(Expired))
    else if t.consumedAt.Some? then
      if !Replayable(s.tokens, t, now) then
        (s.(tokens := RevokeFamily(s.tokens, t.familyId, now)), Rejected(ReuseDetected))
      else if !IsActive(s.users, t.userId) then (s, Rejected(UserInactive))
      else (s, Granted(BuildRefreshSessionToken(cfg.secret, t.replacedBy.value)))
    else if !IsActive(s.users, t.userId) then (s, Rejected(UserInactive))
    else
      var tokens := Replace(cfg, s.tokens, id, now, newId);
      (s.(tokens := tokens, issued := Record(s.issued, newId, tokens[newId])),
       Granted(BuildRefreshSessionToken(cfg.secret, newId)))
  }

  ghost function Rotate(cfg: Config, s: State, presented: string, now: Time, newId: TokenId): (State, Outcome) {
    var found := FindByHash(s.tokens, HashRefreshToken(cfg.secret, presented));
    if found.None? then (s, Rejected(InvalidToken)) else RotateFound(cfg, s, found.value, now, newId)
  }

  ghost function Logout(cfg: Config, s: State, presented: string): State {
    var hash := HashRefreshToken(cfg.secret, presented);
    s.(tokens := Remove(s.tokens, set id | id in s.tokens && s.tokens[id].tokenHash == hash))
  }

  /** A foreign key refuses a token for a user that does not exist. */
  function Issue(cfg: Config, s: State, user: UserId, now: Time, newId: TokenId): State {
    if user !in s.users then s
    else
      var t := BuildRecord(cfg, user, None, None, newId, now);
      s.(tokens := s.tokens[newId := t], issued := Record(s.issued, newId, t))
  }

  function TokensOf(tokens: Tokens, user: UserId): set<TokenId> {
    set id | id in tokens && tokens[id].userId == user
  }

  function DropUserTokens(s: State, user: UserId): State {
    s.(tokens := Remove(s.tokens, TokensOf(s.tokens, user)))
  }

  function PurgeExpired(s: State, now: Time): State {
    s.(tokens := Remove(s.tokens, set id | id in s.tokens && s.tokens[id].expiresAt <= now))
  }

  // ---- runs ----

  datatype Op =
    | IssueOp(user: UserId, now: Time, newId: TokenId)         // login, verification, ticket exchange
    | RotateOp(presented: string, now: Time, newId: TokenId)
    | LogoutOp(presented: string)
    | DropUserTokensOp(user: UserId)                           // password reset, change, set
    | PurgeExpiredOp(now: Time)                                // periodic cleanup
    | SetActiveOp(user: UserId, active: bool)
    | RemoveUserOp(user: UserId)                               // cleanup, cascading to the tokens

  ghost function Step(cfg: Config, s: State, op: Op): State {
    match op
    case IssueOp(user, now, newId) => Issue(cfg, s, user, now, newId)
    case RotateOp(presented, now, newId) => Rotate(cfg, s, presented, now, newId).0
    case LogoutOp(presented) => Logout(cfg, s, presented)
    case DropUserTokensOp(user) => DropUserTokens(s, user)
    case PurgeExpiredOp(now) => PurgeExpired(s, now)
    case SetActiveOp(user, active) => s.(users := s.users[user := active])
    case RemoveUserOp(user) => DropUserTokens(s.(users := s.users - {user}), user)
  }

  /** Fresh ids are well-formed and were never issued before. */
  predicate FreshFor(s: State, op: Op) {
    (op.IssueOp? || op.RotateOp?) ==> IsIdText(op.newId) && op.newId !in s.issued
  }

  ghost predicate ValidRun(cfg: Config, s: State, ops: seq<Op>)
    decreases |ops|
  {
    ops == [] || (FreshFor(s, ops[0]) && ValidRun(cfg, Step(cfg, s, ops[0]), ops[1..]))
  }

  ghost function Run(cfg: Config, s: State, ops: seq<Op>): State
    decreases |ops|
  {
    if ops == [] then s else Run(cfg, Step(cfg, s, ops[0]), ops[1..])
  }

  const Empty: State := State(map[], map[], map[])

  // ---- the invariant ----

  /** The family id is the id of a token issued earlier, or of this one, to the same user. */
  ghost predicate OriginOk(issued: map<TokenId, Origin>, id: TokenId)
    requires id in issued
  {
    var family := issued[id].familyId;
    && IsIdText(id)
    && issued[id].serial < |issued|
    && family in issued
    && issued[family].familyId == family
    && issued[family].userId == issued[id].userId
  }

  ghost predicate HistoryOk(issued: map<TokenId, Origin>) {
    forall id {:trigger OriginOk(issued, id)} :: id in issued ==> OriginOk(issued, id)
  }

  ghost predicate RowOk(secret: Secret, tokens: Tokens, issued: map<TokenId, Origin>, id: TokenId)
    requires id in tokens
  {
    && id in issued
    && tokens[id].familyId == issued[id].familyId
    && tokens[id].userId == issued[id].userId
    && tokens[id].tokenHash == HashRefreshToken(secret, BuildRefreshSessionToken(secret, id))
  }

  /** A successor is stored, points back, stays in the family, was issued later, and its
      predecessor is consumed. */
  ghost predicate SuccessorOk(tokens: Tokens, issued: map<TokenId, Origin>, id: TokenId)
    requires id in tokens
  {
    var t := tokens[id];
    t.replacedBy.Some? ==>
      && t.consumedAt.Some?
      && t.replacedBy.value in tokens
      && tokens[t.replacedBy.value].parent == Some(id)
      && tokens[t.replacedBy.value].familyId == t.familyId
  }

  ghost predicate ParentStored(tokens: Tokens, issued: map<TokenId, Origin>, id: TokenId)
    requires id in tokens
  {
    var t := tokens[id];
    t.parent.Some? ==>
      && t.parent.value in tokens
      && t.parent.value in issued && id in issued
      && issued[t.parent.value].serial < issued[id].serial
  }

  ghost predicate ParentOk(tokens: Tokens, id: TokenId)
    requires id in tokens
  {
    var t := tokens[id];
    t.parent.Some? ==> t.parent.value in tokens && tokens[t.parent.value].replacedBy == Some(id)
  }

  ghost predicate OneLivePerFamily(tokens: Tokens) {
    forall a, b ::
      (a in tokens && b in tokens && tokens[a].familyId == tokens[b].familyId && tokens[a].Live() && tokens[b].Live())
      ==> a == b
  }

  /** What holds after every statement. */
  ghost predicate Chained(secret: Secret, tokens: Tokens, issued: map<TokenId, Origin>) {
    && HistoryOk(issued)
    && (forall id :: id in tokens ==> RowOk(secret, tokens, issued, id))
    && (forall id :: id in tokens ==> SuccessorOk(tokens, issued, id))
    && (forall id :: id in tokens ==> ParentStored(tokens, issued, id))
    && OneLivePerFamily(tokens)
  }

  /** What holds between transactions: in addition every parent link is answered. */
  ghost predicate Inv(secret: Secret, s: State) {
    && Chained(secret, s.tokens, s.issued)
    && forall id :: id in s.tokens ==> ParentOk(s.tokens, id)
  }

  // ---- each table operation keeps the invariant ----

  lemma RemoveKeepsInv(secret: Secret, s: State, gone: set<TokenId>)
    requires Inv(secret, s)
    ensures Inv(secret, s.(tokens := Remove(s.tokens, gone)))
  {
    var tokens := Remove(s.tokens, gone);
    forall id | id in tokens
      ensures RowOk(secret, tokens, s.issued, id) && SuccessorOk(tokens, s.issued, id)
      ensures ParentStored(tokens, s.issued, id) && ParentOk(tokens, id)
    {
      assert RowOk(secret, s.tokens, s.issued, id) && SuccessorOk(s.tokens, s.issued, id);
      assert ParentStored(s.tokens, s.issued, id) && ParentOk(s.tokens, id);
    }
  }

  lemma RevokeKeepsInv(secret: Secret, s: State, family: TokenId, now: Time)
    requires Inv(secret, s)
    ensures Inv(secret, s.(tokens := RevokeFamily(s.tokens, family, now)))
  {
    var tokens := RevokeFamily(s.tokens, family, now);
    forall id | id in tokens
      ensures RowOk(secret, tokens, s.issued, id) && SuccessorOk(tokens, s.issued, id)
      ensures ParentStored(tokens, s.issued, id) && ParentOk(tokens, id)
    {
      assert RowOk(secret, s.tokens, s.issued, id) && SuccessorOk(s.tokens, s.issued, id);
      assert ParentStored(s.tokens, s.issued, id) && ParentOk(s.tokens, id);
    }
  }

  lemma RecordKeepsHistory(issued: map<TokenId, Origin>, newId: TokenId, t: Token)
    requires HistoryOk(issued) && newId !in issued && IsIdText(newId)
    requires t.familyId != newId ==>
               t.familyId in issued && issued[t.familyId].familyId == t.familyId && issued[t.familyId].userId == t.userId
    ensures HistoryOk(Record(issued, newId, t))
  {
    var issued' := Record(issued, newId, t);
    assert issued'.Keys == issued.Keys + {newId};
    assert |issued'.Keys| == |issued.Keys| + 1;
    forall id | id in issued' ensures OriginOk(issued', id) {
      if id != newId {
        assert OriginOk(issued, id);
      }
    }
  }

  lemma IssueKeepsInv(cfg: Config, s: State, user: UserId, now: Time, newId: TokenId)
    requires Inv(cfg.secret, s) && newId !in s.issued && IsIdText(newId)
    ensures Inv(cfg.secret, Issue(cfg, s, user, now, newId))
  {
    var s' := Issue(cfg, s, user, now, newId);
    if user in s.users {
      RecordKeepsHistory(s.issued, newId, s'.tokens[newId]);
      forall id | id in s.tokens ensures id != newId && s.tokens[id].familyId != newId {
        assert RowOk(cfg.secret, s.tokens, s.issued, id) && OriginOk(s.issued, id);
      }
      forall id | id in s'.tokens
        ensures RowOk(cfg.secret, s'.tokens, s'.issued, id) && SuccessorOk(s'.tokens, s'.issued, id)
        ensures ParentStored(s'.tokens, s'.issued, id) && ParentOk(s'.tokens, id)
      {
        if id != newId {
          assert RowOk(cfg.secret, s.tokens, s.issued, id) && SuccessorOk(s.tokens, s.issued, id);
          assert ParentStored(s.tokens, s.issued, id) && ParentOk(s.tokens, id);
        }
      }
    }
  }

  // ---- a rotation, statement by statement ----

  function Consume(tokens: Tokens, id: TokenId, now: Time): Tokens
    requires id in tokens
  {
    tokens[id := tokens[id].(consumedAt := Some(now))]
  }

  function InsertSuccessor(cfg: Config, tokens: Tokens, id: TokenId, now: Time, newId: TokenId): Tokens
    requires id in tokens
  {
    tokens[newId := BuildRecord(cfg, tokens[id].userId, Some(tokens[id].familyId), Some(id), newId, now)]
  }

  function LinkSuccessor(tokens: Tokens, id: TokenId, newId: TokenId): Tokens
    requires id in tokens
  {
    tokens[id := tokens[id].(replacedBy := Some(newId))]
  }

  lemma ConsumeKeepsChains(secret: Secret, tokens: Tokens, issued: map<TokenId, Origin>, id: TokenId, now: Time)
    requires Chained(secret, tokens, issued) && id in tokens
    ensures Chained(secret, Consume(tokens, id, now), issued)
  {
    var tokens' := Consume(tokens, id, now);
    forall x | x in tokens'
      ensures RowOk(secret, tokens', issued, x) && SuccessorOk(tokens', issued, x) && ParentStored(tokens', issued, x)
    {
      assert RowOk(secret, tokens, issued, x) && SuccessorOk(tokens, issued, x) && ParentStored(tokens, issued, x);
    }
  }

  lemma InsertKeepsChains(cfg: Config, tokens: Tokens, issued: map<TokenId, Origin>, id: TokenId, now: Time, newId: TokenId)
    requires Chained(cfg.secret, tokens, issued) && id in tokens && newId !in issued && IsIdText(newId)
    requires forall x :: x in tokens && tokens[x].familyId == tokens[id].familyId ==> !tokens[x].Live()
    ensures var tokens' := InsertSuccessor(cfg, tokens, id, now, newId);
            Chained(cfg.secret, tokens', Record(issued, newId, tokens'[newId]))
  {
    var tokens' := InsertSuccessor(cfg, tokens, id, now, newId);
    var issued' := Record(issued, newId, tokens'[newId]);
    assert RowOk(cfg.secret, tokens, issued, id) && OriginOk(issued, id);
    RecordKeepsHistory(issued, newId, tokens'[newId]);
    forall x | x in tokens'
      ensures RowOk(cfg.secret, tokens', issued', x) && SuccessorOk(tokens', issued', x) && ParentStored(tokens', issued', x)
    {
      if x != newId {
        assert RowOk(cfg.secret, tokens, issued, x) && SuccessorOk(tokens, issued, x) && ParentStored(tokens, issued, x);
      }
    }
  }

  lemma LinkKeepsChains(secret: Secret, tokens: Tokens, issued: map<TokenId, Origin>, id: TokenId, newId: TokenId)
    requires Chained(secret, tokens, issued) && id in tokens && newId in tokens && id != newId
    requires tokens[id].consumedAt.Some? && tokens[newId].parent == Some(id) && tokens[newId].familyId == tokens[id].familyId
    ensures Chained(secret, LinkSuccessor(tokens, id, newId), issued)
  {
    var tokens' := LinkSuccessor(tokens, id, newId);
    forall x | x in tokens'
      ensures RowOk(secret, tokens', issued, x) && SuccessorOk(tokens', issued, x) && ParentStored(tokens', issued, x)
    {
      assert RowOk(secret, tokens, issued, x) && SuccessorOk(tokens, issued, x) && ParentStored(tokens, issued, x);
    }
  }

  /** The chains and the unique indexes hold after each of the three statements of a rotation,
      and the whole invariant after the last. */
  lemma RotationKeepsChains(cfg: Config, s: State, id: TokenId, now: Time, newId: TokenId)
    requires Inv(cfg.secret, s) && id in s.tokens && s.tokens[id].Live() && newId !in s.issued && IsIdText(newId)
    ensures var t1 := Consume(s.tokens, id, now);
            var t2 := InsertSuccessor(cfg, t1, id, now, newId);
            var t3 := LinkSuccessor(t2, id, newId);
            var issued' := Record(s.issued, newId, t2[newId]);
            && Chained(cfg.secret, t1, s.issued)
            && Chained(cfg.secret, t2, issued')
            && t3 == Replace(cfg, s.tokens, id, now, newId)
            && Inv(cfg.secret, s.(tokens := t3, issued := issued'))
  {
    StoredIsIssued(cfg.secret, s);
    ConsumeThenInsert(cfg, s.tokens, s.issued, id, now, newId);
    var t1 := Consume(s.tokens, id, now);
    var t2 := InsertSuccessor(cfg, t1, id, now, newId);
    LinkAfterInsert(cfg, t1, Record(s.issued, newId, t2[newId]), id, now, newId);
    StatementsAreReplace(cfg, s.tokens, id, now, newId);
    ParentsAnswered(cfg, s, id, now, newId);
  }

  lemma StatementsAreReplace(cfg: Config, tokens: Tokens, id: TokenId, now: Time, newId: TokenId)
    requires id in tokens && newId !in tokens
    ensures LinkSuccessor(InsertSuccessor(cfg, Consume(tokens, id, now), id, now, newId), id, newId)
         == Replace(cfg, tokens, id, now, newId)
  {
  }

  lemma LinkAfterInsert(cfg: Config, t1: Tokens, issued': map<TokenId, Origin>, id: TokenId, now: Time, newId: TokenId)
    requires id in t1 && t1[id].consumedAt.Some? && newId !in t1
    requires Chained(cfg.secret, InsertSuccessor(cfg, t1, id, now, newId), issued')
    ensures Chained(cfg.secret, LinkSuccessor(InsertSuccessor(cfg, t1, id, now, newId), id, newId), issued')
  {
    LinkKeepsChains(cfg.secret, InsertSuccessor(cfg, t1, id, now, newId), issued', id, newId);
  }

  lemma ParentsAnswered(cfg: Config, s: State, id: TokenId, now: Time, newId: TokenId)
    requires Inv(cfg.secret, s) && id in s.tokens && s.tokens[id].Live() && newId !in s.tokens
    ensures var tokens' := Replace(cfg, s.tokens, id, now, newId); forall x :: x in tokens' ==> ParentOk(tokens', x)
  {
    assert SuccessorOk(s.tokens, s.issued, id);
    ReplaceAnswersParents(cfg, s.tokens, id, now, newId);
  }

  lemma ConsumeThenInsert(cfg: Config, tokens: Tokens, issued: map<TokenId, Origin>, id: TokenId, now: Time, newId: TokenId)
    requires Chained(cfg.secret, tokens, issued) && id in tokens && tokens[id].Live()
    requires newId !in issued && IsIdText(newId)
    ensures var t1 := Consume(tokens, id, now);
            var t2 := InsertSuccessor(cfg, t1, id, now, newId);
            Chained(cfg.secret, t1, issued) && Chained(cfg.secret, t2, Record(issued, newId, t2[newId]))
  {
    var t1 := Consume(tokens, id, now);
    ConsumeKeepsChains(cfg.secret, tokens, issued, id, now);
    forall x | x in t1 && t1[x].familyId == t1[id].familyId ensures !t1[x].Live() {
      assert x != id && tokens[x].Live() ==> x == id;
    }
    InsertKeepsChains(cfg, t1, issued, id, now, newId);
  }

  /** After a rotation every parent link is answered, the new one included. */
  lemma ReplaceAnswersParents(cfg: Config, tokens: Tokens, id: TokenId, now: Time, newId: TokenId)
    requires id in tokens && newId !in tokens && tokens[id].replacedBy.None?
    requires forall x :: x in tokens ==> ParentOk(tokens, x)
    ensures var tokens' := Replace(cfg, tokens, id, now, newId); forall x :: x in tokens' ==> ParentOk(tokens', x)
  {
    var tokens' := Replace(cfg, tokens, id, now, newId);
    forall x | x in tokens' ensures ParentOk(tokens', x) {
      if x != newId {
        assert ParentOk(tokens, x);
      }
    }
  }

  lemma StoredIsIssued(secret: Secret, s: State)
    requires Inv(secret, s)
    ensures s.tokens.Keys <= s.issued.Keys
  {
  }

  /** The order of the statements matters: inserting the successor before consuming the old
      token would put two live tokens in the family, against the unique index. */
  lemma InsertFirstBreaksIndex(cfg: Config, tokens: Tokens, id: TokenId, now: Time, newId: TokenId)
    requires id in tokens && tokens[id].Live() && newId !in tokens
    ensures !OneLivePerFamily(InsertSuccessor(cfg, tokens, id, now, newId))
  {
    var tokens' := InsertSuccessor(cfg, tokens, id, now, newId);
    assert tokens'[id].Live() && tokens'[newId].Live() && tokens'[id].familyId == tokens'[newId].familyId;
  }

  // ---- lookup ----

  /** A client's string finds a stored token exactly when it is the string issued for it. */
  lemma LookupExact(cfg: Config, s: State, presented: string, id: TokenId)
    requires Inv(cfg.secret, s)
    ensures FindByHash(s.tokens, HashRefreshToken(cfg.secret, presented)) == Some(id)
       <==> id in s.tokens && presented == BuildRefreshSessionToken(cfg.secret, id)
  {
    var hash := HashRefreshToken(cfg.secret, presented);
    var found := FindByHash(s.tokens, hash);
    if found.Some? {
      assert RowOk(cfg.secret, s.tokens, s.issued, found.value);
      RefreshTokenHashInjective(cfg.secret, presented, BuildRefreshSessionToken(cfg.secret, found.value));
    }
    if id in s.tokens && presented == BuildRefreshSessionToken(cfg.secret, id) {
      assert RowOk(cfg.secret, s.tokens, s.issued, id) && OriginOk(s.issued, id);
      assert OriginOk(s.issued, found.value);
      SessionTokenInjective(cfg.secret, id, found.value);
    }
  }

  lemma RotatePresented(cfg: Config, s: State, id: TokenId, now: Time, newId: TokenId)
    requires Inv(cfg.secret, s) && IsIdText(id)
    ensures Rotate(cfg, s, BuildRefreshSessionToken(cfg.secret, id), now, newId)
         == if id in s.tokens then RotateFound(cfg, s, id, now, newId) else (s, Rejected(InvalidToken))
  {
    var presented := BuildRefreshSessionToken(cfg.secret, id);
    var found := FindByHash(s.tokens, HashRefreshToken(cfg.secret, presented));
    LookupExact(cfg, s, presented, id);
    if found.Some? {
      LookupExact(cfg, s, presented, found.value);
      assert RowOk(cfg.secret, s.tokens, s.issued, found.value) && OriginOk(s.issued, found.value);
      SessionTokenInjective(cfg.secret, id, found.value);
    }
  }
}
