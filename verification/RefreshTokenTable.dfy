// src/auth/service.rs: the refresh_tokens table and the statements the service runs on it.
module RefreshTokenTable {
  import opened Common
  import opened Hashing
  import opened RefreshTokens
  import opened RefreshTokenRuns

  class Table {
    const cfg: Config
    var tokens: Tokens
    var users: map<UserId, bool>
    ghost var issued: map<TokenId, Origin>

    constructor (cfg: Config)
      ensures Contents() == Empty && Valid() && this.cfg == cfg
    {
      this.cfg := cfg;
      tokens, users, issued := map[], map[], map[];
    }

    ghost function Contents(): State
      reads this
    {
      State(tokens, users, issued)
    }

    ghost predicate Valid()
      reads this
    {
      Inv(cfg.secret, Contents())
    }

    /** SELECT ... WHERE token_hash = $1. */
    method SelectByHash(hash: string) returns (found: Option<TokenId>)
      ensures found.Some? ==> found.value in tokens && tokens[found.value].tokenHash == hash
      ensures found.None? ==> forall id :: id in tokens ==> tokens[id].tokenHash != hash
    {
      if id :| id in tokens && tokens[id].tokenHash == hash {
        found := Some(id);
      } else {
        found := None;
      }
    }

    lemma SameRow(presented: string, found: Option<TokenId>)
      requires Valid()
      requires found.Some? ==>
        found.value in tokens && tokens[found.value].tokenHash == HashRefreshToken(cfg.secret, presented)
      requires found.None? ==>
        forall id :: id in tokens ==> tokens[id].tokenHash != HashRefreshToken(cfg.secret, presented)
      ensures found == FindByHash(tokens, HashRefreshToken(cfg.secret, presented))
    {
      var hash := HashRefreshToken(cfg.secret, presented);
      var spec := FindByHash(tokens, hash);
      if found.Some? {
        var id, id' := found.value, spec.value;
        assert RowOk(cfg.secret, tokens, issued, id) && RowOk(cfg.secret, tokens, issued, id');
        assert OriginOk(issued, id) && OriginOk(issued, id');
        RefreshTokenHashInjective(cfg.secret, BuildRefreshSessionToken(cfg.secret, id), BuildRefreshSessionToken(cfg.secret, id'));
        SessionTokenInjective(cfg.secret, id, id');
      }
    }

    method RevokeRefreshTokenFamily(family: TokenId, now: Time)
      requires Valid()
      modifies this
      ensures Valid() && Contents() == old(Contents()).(tokens := RevokeFamily(old(tokens), family, now))
    {
      RevokeKeepsInv(cfg.secret, Contents(), family, now);
      Coalesced(tokens, family, now);
      tokens := map id | id in tokens ::
        if tokens[id].familyId == family
        then tokens[id].(revokedAt := if tokens[id].revokedAt.Some? then tokens[id].revokedAt else Some(now))
        else tokens[id];
    }

    /** COALESCE(revoked_at, now) is revoking the rows that are not revoked. */
    lemma Coalesced(rows: Tokens, family: TokenId, now: Time)
      ensures RevokeFamily(rows, family, now)
           == map id | id in rows ::
                if rows[id].familyId == family
                then rows[id].(revokedAt := if rows[id].revokedAt.Some? then rows[id].revokedAt else Some(now))
                else rows[id]
    {
    }

    method RotateRefreshToken(oldToken: string, now: Time, newId: TokenId) returns (outcome: Outcome)
      requires Valid() && newId !in issued && IsIdText(newId)
      modifies this
      ensures Valid() && (Contents(), outcome) == Rotate(cfg, old(Contents()), oldToken, now, newId)
    {
      var found := SelectByHash(HashRefreshToken(cfg.secret, oldToken));
      SameRow(oldToken, found);
      if found.None? {
        return Rejected(InvalidToken);
      }
      var id := found.value;
      var record := tokens[id];
      if record.revokedAt.Some? {
        return Rejected(Revoked);
      }
      if now > record.expiresAt {
        return Rejected(Expired);
      }
      if record.consumedAt.Some? {
        if record.replacedBy.None? {
          RevokeRefreshTokenFamily(record.familyId, now);
          return Rejected(ReuseDetected);
        }
        var successorId := record.replacedBy.value;
        var withinIdempotentWindow := now <= record.consumedAt.value + IDEMPOTENT_WINDOW;
        var successorIsReusable :=
          successorId in tokens && tokens[successorId].revokedAt.None?
          && tokens[successorId].consumedAt.None? && now <= tokens[successorId].expiresAt;
        if withinIdempotentWindow && successorIsReusable {
          if !IsActive(users, record.userId) {
            return Rejected(UserInactive);
          }
          return Granted(BuildRefreshSessionToken(cfg.secret, successorId));
        }
        RevokeRefreshTokenFamily(record.familyId, now);
        return Rejected(ReuseDetected);
      }
      if !IsActive(users, record.userId) {
        return Rejected(UserInactive);
      }
      var row := BuildRecord(cfg, record.userId, Some(record.familyId), Some(id), newId, now);
      ReplaceToken(id, row, now, newId);
      return Granted(BuildRefreshSessionToken(cfg.secret, newId));
    }

    /** Consume the old token, insert the new one, link the old one to it. Between the statements
        the chains and the unique indexes hold. */
    method ReplaceToken(id: TokenId, row: Token, now: Time, newId: TokenId)
      requires Valid() && id in tokens && tokens[id].Live() && newId !in issued && IsIdText(newId)
      requires row == BuildRecord(cfg, tokens[id].userId, Some(tokens[id].familyId), Some(id), newId, now)
      modifies this`tokens, this`issued
      ensures Valid() && tokens == Replace(cfg, old(tokens), id, now, newId)
      ensures issued == Record(old(issued), newId, tokens[newId])
    {
      StoredIsIssued(cfg.secret, Contents());
      RotationKeepsChains(cfg, Contents(), id, now, newId);

      tokens := tokens[id := tokens[id].(consumedAt := Some(now))];
      assert Chained(cfg.secret, tokens, issued);

      tokens := tokens[newId := row];
      issued := Record(issued, newId, row);
      assert Chained(cfg.secret, tokens, issued);

      tokens := tokens[id := tokens[id].(replacedBy := Some(newId))];
    }

    method CreateRefreshToken(user: UserId, now: Time, newId: TokenId) returns (token: Option<string>)
      requires Valid() && newId !in issued && IsIdText(newId)
      modifies this
      ensures Valid() && Contents() == Issue(cfg, old(Contents()), user, now, newId)
      ensures token == if user in users then Some(BuildRefreshSessionToken(cfg.secret, newId)) else None
    {
      IssueKeepsInv(cfg, Contents(), user, now, newId);
      var row := BuildRecord(cfg, user, None, None, newId, now);
      if user !in users {
        return None;  // the foreign key refuses the row
      }
      tokens := tokens[newId := row];
      issued := Record(issued, newId, row);
      return Some(BuildRefreshSessionToken(cfg.secret, newId));
    }

    /** DELETE FROM refresh_tokens: the rows go, and the references to them become null. */
    method DeleteRows(gone: set<TokenId>)
      requires Valid() && gone <= tokens.Keys
      modifies this`tokens
      ensures Valid() && tokens == Remove(old(tokens), gone)
    {
      RemoveKeepsInv(cfg.secret, Contents(), gone);
      tokens := tokens - gone;
      tokens := map id | id in tokens ::
        tokens[id].(parent := Cut(tokens[id].parent, gone), replacedBy := Cut(tokens[id].replacedBy, gone));
      assert tokens == Remove(old(tokens), gone);
    }

    method Logout(refreshToken: string)
      requires Valid()
      modifies this
      ensures Valid() && Contents() == RefreshTokens.Logout(cfg, old(Contents()), refreshToken)
    {
      var hash := HashRefreshToken(cfg.secret, refreshToken);
      DeleteRows(set id | id in tokens && tokens[id].tokenHash == hash);
    }

    /** The last statement of a password reset, change or set. */
    method DeleteRefreshTokensForUser(user: UserId)
      requires Valid()
      modifies this
      ensures Valid() && Contents() == DropUserTokens(old(Contents()), user)
    {
      DeleteRows(TokensOf(tokens, user));
    }

    method CleanupExpired(now: Time)
      requires Valid()
      modifies this
      ensures Valid() && Contents() == PurgeExpired(old(Contents()), now)
    {
      DeleteRows(set id | id in tokens && tokens[id].expiresAt <= now);
    }
  }
}
