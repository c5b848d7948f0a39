// What each operation on the refresh_tokens table does, row by row, in the words of its caller.
module RefreshTokenEffects {
  import opened Common
  import opened Hashing
  import opened RefreshTokens
  import opened RefreshTokenRuns

  // ---- deletions ----

  /** A link is kept unless it points to a row that has gone. */
  ghost predicate LinkKept(after: Tokens, link: Option<TokenId>, link': Option<TokenId>) {
    link' == if link.Some? && link.value !in after then None else link
  }

  ghost predicate Survives(after: Tokens, t: Token, t': Token) {
    && t'.userId == t.userId && t'.familyId == t.familyId && t'.tokenHash == t.tokenHash
    && t'.expiresAt == t.expiresAt && t'.consumedAt == t.consumedAt && t'.revokedAt == t.revokedAt
    && LinkKept(after, t.parent, t'.parent) && LinkKept(after, t.replacedBy, t'.replacedBy)
  }

  /** Every surviving row is as before, apart from links to the rows that went. */
  ghost predicate OnlyDeleted(before: Tokens, after: Tokens) {
    after.Keys <= before.Keys && forall x :: x in after ==> Survives(after, before[x], after[x])
  }

  lemma RemoveOnlyDeletes(secret: Secret, s: State, gone: set<TokenId>)
    requires Inv(secret, s)
    ensures Remove(s.tokens, gone).Keys == s.tokens.Keys - gone
    ensures OnlyDeleted(s.tokens, Remove(s.tokens, gone))
  {
    var after := Remove(s.tokens, gone);
    forall x | x in after ensures Survives(after, s.tokens[x], after[x]) {
      assert ParentStored(s.tokens, s.issued, x) && SuccessorOk(s.tokens, s.issued, x);
    }
  }

  /** The cleanup deletes a row if and only if it has expired. */
  lemma CleanupEffect(secret: Secret, s: State, now: Time)
    requires Inv(secret, s)
    ensures var s' := PurgeExpired(s, now);
      && (forall x :: x in s'.tokens <==> x in s.tokens && now < s.tokens[x].expiresAt)
      && OnlyDeleted(s.tokens, s'.tokens)
      && s'.users == s.users
  {
    RemoveOnlyDeletes(secret, s, set x | x in s.tokens && s.tokens[x].expiresAt <= now);
  }

  /** An unexpired live token of an active user is still rotated after a cleanup; an expired one is
      then unknown. */
  lemma TokenAfterCleanup(cfg: Config, s: State, id: TokenId, cleanup: Time, now: Time, newId: TokenId)
    requires Inv(cfg.secret, s) && id in s.tokens && newId !in s.issued && IsIdText(newId)
    ensures var (_, outcome) := Rotate(cfg, PurgeExpired(s, cleanup), BuildRefreshSessionToken(cfg.secret, id), now, newId);
      var unexpired := cleanup < s.tokens[id].expiresAt && now <= s.tokens[id].expiresAt;
      && (s.tokens[id].Live() && unexpired && IsActive(s.users, s.tokens[id].userId) ==>
            outcome == Granted(BuildRefreshSessionToken(cfg.secret, newId)))
      && (s.tokens[id].expiresAt <= cleanup ==> outcome == Rejected(InvalidToken))
  {
    var s' := PurgeExpired(s, cleanup);
    CleanupEffect(cfg.secret, s, cleanup);
    RemoveKeepsInv(cfg.secret, s, set x | x in s.tokens && s.tokens[x].expiresAt <= cleanup);
    IssuedIdText(cfg.secret, s, id);
    if id in s'.tokens {
      assert Survives(s'.tokens, s.tokens[id], s'.tokens[id]);
      if s.tokens[id].Live() {
        RotationEffect(cfg, s', id, now, newId);
      }
    } else {
      RotatePresented(cfg, s', id, now, newId);
    }
  }

  /** A password reset, change or set deletes all of the user's rows and nobody else's. */
  lemma DropUserEffect(secret: Secret, s: State, user: UserId)
    requires Inv(secret, s)
    ensures var s' := DropUserTokens(s, user);
      && (forall x :: x in s'.tokens <==> x in s.tokens && s.tokens[x].userId != user)
      && OnlyDeleted(s.tokens, s'.tokens)
      && s'.users == s.users
  {
    RemoveOnlyDeletes(secret, s, TokensOf(s.tokens, user));
  }

  /** A logout deletes the row of the presented token and no other; an unknown one deletes none. */
  lemma LogoutEffect(cfg: Config, s: State, presented: string)
    requires Inv(cfg.secret, s)
    ensures var s' := Logout(cfg, s, presented);
      && (forall x :: x in s'.tokens <==> x in s.tokens && presented != BuildRefreshSessionToken(cfg.secret, x))
      && OnlyDeleted(s.tokens, s'.tokens)
      && s'.users == s.users
  {
    var hash := HashRefreshToken(cfg.secret, presented);
    forall x | x in s.tokens ensures s.tokens[x].tokenHash == hash <==> presented == BuildRefreshSessionToken(cfg.secret, x) {
      assert RowOk(cfg.secret, s.tokens, s.issued, x);
      RefreshTokenHashInjective(cfg.secret, presented, BuildRefreshSessionToken(cfg.secret, x));
    }
    RemoveOnlyDeletes(cfg.secret, s, set x | x in s.tokens && s.tokens[x].tokenHash == hash);
  }

  // ---- revocation and rotation ----

  /** Revoking a family stamps its rows that had no stamp, and changes nothing else. */
  ghost predicate FamilyStamped(before: Tokens, after: Tokens, family: TokenId, now: Time) {
    && after.Keys == before.Keys
    && (forall x :: x in before && before[x].familyId == family ==>
          && after[x].revokedAt == Some(before[x].revokedAt.GetOr(now))
          && after[x].(revokedAt := None) == before[x].(revokedAt := None))
    && (forall x :: x in before && before[x].familyId != family ==> after[x] == before[x])
  }

  /** What presenting a stored token comes to, by the state of its row and of its successor's. */
  lemma RotateDecision(cfg: Config, s: State, id: TokenId, now: Time, newId: TokenId)
    requires Inv(cfg.secret, s) && id in s.tokens && newId !in s.issued && IsIdText(newId)
    ensures var (s', outcome) := Rotate(cfg, s, BuildRefreshSessionToken(cfg.secret, id), now, newId);
      var t := s.tokens[id];
      var active := t.userId in s.users && s.users[t.userId];
      var usable := t.revokedAt.None? && now <= t.expiresAt;
      var replay := t.consumedAt.Some? && now <= t.consumedAt.value + 5 * SECOND
                    && t.replacedBy.Some? && t.replacedBy.value in s.tokens
                    && s.tokens[t.replacedBy.value].consumedAt.None? && s.tokens[t.replacedBy.value].revokedAt.None?
                    && now <= s.tokens[t.replacedBy.value].expiresAt;
      && (outcome == Rejected(Revoked) <==> t.revokedAt.Some?)
      && (outcome == Rejected(Expired) <==> t.revokedAt.None? && t.expiresAt < now)
      && (outcome == Rejected(ReuseDetected) <==> usable && t.consumedAt.Some? && !replay)
      && (outcome == Rejected(UserInactive) <==> usable && (t.consumedAt.None? || replay) && !active)
      && (outcome.Granted? <==> usable && (t.consumedAt.None? || replay) && active)
      && (outcome.Granted? && t.consumedAt.None? ==>
            outcome.refreshToken == BuildRefreshSessionToken(cfg.secret, newId) && Rotated(cfg, s.tokens, s'.tokens, id, newId, now))
      && (outcome.Granted? && t.consumedAt.Some? ==>
            outcome.refreshToken == BuildRefreshSessionToken(cfg.secret, t.replacedBy.value) && s' == s)
      && (outcome == Rejected(ReuseDetected) ==>
            FamilyStamped(s.tokens, s'.tokens, t.familyId, now) && s'.users == s.users && s'.issued == s.issued)
      && (outcome.Rejected? && outcome.reason != ReuseDetected ==> s' == s)
  {
    IssuedIdText(cfg.secret, s, id);
    RotatePresented(cfg, s, id, now, newId);
    Decided(cfg, s, id, now, newId);
    if s.tokens[id].Live() {
      ReplaceRotates(cfg, s, id, now, newId);
    } else {
      FamilyRevoked(s.tokens, s.tokens[id].familyId, now);
    }
  }

  lemma FamilyRevoked(tokens: Tokens, family: TokenId, now: Time)
    ensures FamilyStamped(tokens, RevokeFamily(tokens, family, now), family, now)
  {
  }

  lemma Decided(cfg: Config, s: State, id: TokenId, now: Time, newId: TokenId)
    requires id in s.tokens
    ensures var (s', outcome) := RotateFound(cfg, s, id, now, newId);
      var t := s.tokens[id];
      var usable := t.revokedAt.None? && now <= t.expiresAt;
      var replay := Replayable(s.tokens, t, now);
      && (outcome == Rejected(Revoked) <==> t.revokedAt.Some?)
      && (outcome == Rejected(Expired) <==> t.revokedAt.None? && t.expiresAt < now)
      && (outcome == Rejected(ReuseDetected) <==> usable && t.consumedAt.Some? && !replay)
      && (outcome == Rejected(UserInactive) <==> usable && (t.consumedAt.None? || replay) && !IsActive(s.users, t.userId))
      && (outcome.Granted? && t.consumedAt.None? ==> outcome.refreshToken == BuildRefreshSessionToken(cfg.secret, newId))
      && (outcome.Granted? && t.consumedAt.Some? ==> replay)
      && (outcome.Granted? && replay ==> outcome.refreshToken == BuildRefreshSessionToken(cfg.secret, t.replacedBy.value) && s' == s)
      && (outcome == Rejected(ReuseDetected) ==> s' == s.(tokens := RevokeFamily(s.tokens, t.familyId, now)))
      && (outcome.Rejected? && outcome.reason != ReuseDetected ==> s' == s)
  {
  }

  // ---- new sessions ----

  /** The foreign key refuses a session for a missing user, and nothing is stored. */
  lemma NoSessionWithoutUser(cfg: Config, s: State, user: UserId, now: Time, newId: TokenId)
    requires user !in s.users
    ensures Issue(cfg, s, user, now, newId) == s
  {
  }
}
