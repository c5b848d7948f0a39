// src/auth/service.rs, src/user/service.rs and src/shared/maintenance.rs: the account tables, the
// transactions run on them, and the sign-ins, whose tokens or ticket are made by a statement of its
// own after other transactions may have run.
module AccountStore {
  import opened Common
  import opened Accounts

  class Store {
    var users: map<UserId, User>
    var links: map<Key, UserId>
    var tickets: map<string, Ticket>
    ghost var ids: set<UserId>
    ghost var granted: set<UserId>
    ghost var sessions: set<UserId>

    constructor ()
      ensures Valid() && Contents() == Empty
    {
      users, links, tickets, ids, granted, sessions := map[], map[], map[], {}, {}, {};
    }

    ghost function Contents(): State
      reads this
    {
      State(users, links, tickets, ids, granted, sessions)
    }

    ghost predicate Valid()
      reads this
    {
      Inv(Contents())
    }

    method LoadUserByEmail(email: string) returns (r: Option<UserId>)
      requires Valid()
      ensures r == ByEmail(Contents(), email)
    {
      if u :| u in users && users[u].email == email {
        return Some(u);
      }
      return None;
    }

    method LoadExistingProviderLink(user: UserId, provider: string) returns (r: Option<string>)
      requires Valid()
      ensures r == LinkOf(Contents(), user, provider)
    {
      if k :| k in links && links[k] == user && k.provider == provider {
        ghost var spec := LinkOf(Contents(), user, provider);
        assert Key(provider, spec.value) == k;
        return Some(k.id);
      }
      return None;
    }

    method MarkVerified(user: UserId, now: Time)
      requires user in users
      modifies this`users
      ensures Contents() == Verify(old(Contents()), user, now)
    {
      users := users[user := users[user].(isVerified := true, updatedAt := now)];
    }

    method MaybeMarkUserVerifiedFromSocial(user: UserId, socialEmail: string, now: Time)
      requires user in users
      modifies this`users
      ensures Contents() == MaybeVerify(old(Contents()), user, socialEmail, now)
    {
      if users[user].isVerified || users[user].email != socialEmail {
        return;
      }
      MarkVerified(user, now);
    }

    method StoreHash(user: UserId, password: string, now: Time)
      requires user in users
      modifies this`users
      ensures Contents() == SetHash(old(Contents()), user, password, now)
    {
      users := users[user := users[user].(password := Some(password), updatedAt := now)];
    }

    method InsertUser(user: UserId, row: User)
      modifies this`users, this`ids
      ensures Contents() == AddUser(old(Contents()), user, row)
    {
      users, ids := users[user := row], ids + {user};
    }

    method ResolveSocialUser(identity: Identity, now: Time, newId: UserId) returns (r: Result)
      requires Valid() && newId !in ids
      modifies this`users, this`links, this`ids
      ensures Valid() && (Contents(), r) == Accounts.ResolveSocialUser(old(Contents()), identity, now, newId)
    {
      ResolveKeepsInv(Contents(), identity, now, newId);
      if identity.key in links && links[identity.key] in users {
        var user := links[identity.key];
        if !users[user].isActive {
          return Failed(Suspended);
        }
        MaybeMarkUserVerifiedFromSocial(user, identity.email, now);
        return LoggedIn(user);
      }
      var found := LoadUserByEmail(identity.email);
      if found.None? {
        InsertUser(newId, User(identity.email, true, true, None, now));
        links := links[identity.key := newId];
        return LoggedIn(newId);
      }
      var user := found.value;
      if !users[user].isActive {
        return Failed(Suspended);
      }
      var existing := LoadExistingProviderLink(user, identity.key.provider);
      if existing.Some? && existing.value != identity.key.id {
        return Failed(LinkedToAnotherAccount);
      }
      if existing.None? {
        if users[user].isVerified {
          return Failed(AccountExists);
        }
        links := links[identity.key := user];
      }
      MaybeMarkUserVerifiedFromSocial(user, identity.email, now);
      return LoggedIn(user);
    }

    /** The invariant is kept for the ids that come with an access token; the new state is the
        specified one for all. */
    method LinkSocialIdentity(user: UserId, identity: Identity, now: Time) returns (r: Result)
      requires Valid()
      modifies this
      ensures (Contents(), r) == Accounts.LinkSocialIdentity(old(Contents()), user, identity, now)
      ensures old(Authenticated(Contents(), user)) ==> Valid()
    {
      if Authenticated(Contents(), user) {
        AuthenticatedIsVerified(Contents(), user);
        LinkKeepsInv(Contents(), user, identity, now);
      }
      if user !in users {
        return Failed(NoSuchUser);
      }
      if !users[user].isActive {
        return Failed(Suspended);
      }
      var existing := LoadExistingProviderLink(user, identity.key.provider);
      if existing.Some? {
        if existing.value != identity.key.id {
          return Failed(LinkedToAnotherAccount);
        }
      } else {
        if identity.key in links && links[identity.key] in users && links[identity.key] != user {
          return Failed(LinkedToAnotherUser);
        }
        links := links[identity.key := user];
      }
      MaybeMarkUserVerifiedFromSocial(user, identity.email, now);
      return Done;
    }

    /** The account part of `create_email_verification`. */
    method RegisterAccount(email: string, password: string, now: Time, newId: UserId) returns (r: Result)
      requires Valid() && newId !in ids
      modifies this
      ensures Valid() && (Contents(), r) == Register(old(Contents()), email, password, now, newId)
    {
      RegisterKeepsInv(Contents(), email, password, now, newId);
      var found := LoadUserByEmail(email);
      if found.None? {
        InsertUser(newId, User(email, true, false, Some(password), now));
        return Done;
      }
      var user := found.value;
      if !users[user].isActive {
        return Failed(Suspended);
      }
      if users[user].isVerified {
        return Failed(AlreadyRegistered);
      }
      StoreHash(user, password, now);
      return Done;
    }

    // ---- the transactions that decide a sign-in ----

    method VerifyEmail(email: string, codeAccepted: bool, legacy: Option<string>, now: Time, newId: UserId) returns (r: Result)
      requires Valid() && newId !in ids
      modifies this
      ensures Valid() && (Contents(), r) == Accounts.VerifyEmail(old(Contents()), email, codeAccepted, legacy, now, newId)
    {
      VerifyKeepsInv(Contents(), email, codeAccepted, legacy, now, newId);
      var found := LoadUserByEmail(email);
      if found.Some? {
        var user := found.value;
        if !users[user].isActive {
          return Failed(Suspended);
        }
        if users[user].isVerified {
          return Failed(AlreadyVerified);
        }
        if !codeAccepted {
          return Failed(BadCode);
        }
        MarkVerified(user, now);
        granted := granted + {user};
        return LoggedIn(user);
      }
      if !codeAccepted {
        return Failed(BadCode);
      }
      if legacy.None? {
        return Failed(NoPassword);
      }
      InsertUser(newId, User(email, true, true, legacy, now));
      granted := granted + {newId};
      return LoggedIn(newId);
    }

    method CheckPassword(email: string, password: string) returns (r: Result)
      requires Valid()
      modifies this
      ensures Valid() && (Contents(), r) == Accounts.Login(old(Contents()), email, password)
    {
      LoginKeepsInv(Contents(), email, password);
      var found := LoadUserByEmail(email);
      if found.None? {
        return Failed(BadCredentials);
      }
      var user := found.value;
      if !users[user].isActive {
        return Failed(Suspended);
      }
      if users[user].password != Some(password) {
        return Failed(BadCredentials);
      }
      if !users[user].isVerified {
        return Failed(NotVerified);
      }
      granted := granted + {user};
      return LoggedIn(user);
    }

    method AuthenticateSocialIdentity(identity: Identity, now: Time, newId: UserId) returns (r: Result)
      requires Valid() && newId !in ids
      modifies this
      ensures Valid() && (Contents(), r) == SocialSignIn(old(Contents()), identity, now, newId)
    {
      SocialKeepsInv(Contents(), identity, now, newId);
      r := ResolveSocialUser(identity, now, newId);
      if r.LoggedIn? {
        granted := granted + {r.user};
      }
    }

    method RedeemTicket(ticket: string, now: Time) returns (r: Result)
      requires Valid()
      modifies this
      ensures Valid() && (Contents(), r) == ExchangeTicket(old(Contents()), ticket, now)
    {
      ExchangeKeepsInv(Contents(), ticket, now);
      if ticket !in tickets {
        return Failed(TicketInvalid);
      }
      var ticketsAtBegin, record := tickets, tickets[ticket];
      tickets := tickets - {ticket};
      if now > record.expiresAt {
        return Failed(TicketExpired);  // committed: the expired ticket is gone
      }
      if record.userId !in users || !users[record.userId].isActive {
        tickets := ticketsAtBegin;
        return Failed(NoSuchUser);
      }
      granted := granted + {record.userId};
      return LoggedIn(record.userId);
    }

    // ---- the statements that follow a sign-in ----

    /** INSERT INTO refresh_tokens, in the account's terms; the foreign key may refuse it. */
    method CreateRefreshToken(user: UserId) returns (ok: bool)
      requires Valid() && user in granted
      modifies this
      ensures Valid() && Contents() == IssueTokens(old(Contents()), user)
      ensures ok <==> user in old(users)
    {
      Accounts.IssueKeepsInv(Contents(), user);
      ok := user in users;
      if ok {
        sessions := sessions + {user};
      }
    }

    method CreateOauthLoginTicket(user: UserId, ticket: string, now: Time) returns (ok: bool)
      requires Valid() && user in granted && ticket !in tickets
      modifies this
      ensures Valid() && Contents() == CreateTicket(old(Contents()), user, ticket, now)
      ensures ok <==> user in old(users)
    {
      TicketKeepsInv(Contents(), user, ticket, now);
      ok := user in users;
      if ok {
        tickets := tickets[ticket := Ticket(user, now + TICKET_EXPIRY)];
      }
    }

    // ---- the other transactions ----

    method VerifyEmailChange(user: UserId, email: string, codeAccepted: bool, now: Time) returns (r: Result)
      requires Valid()
      modifies this
      ensures Valid() && (Contents(), r) == ChangeEmail(old(Contents()), user, email, codeAccepted, now)
    {
      ChangeEmailKeepsInv(Contents(), user, email, codeAccepted, now);
      if !codeAccepted {
        return Failed(BadCode);
      }
      if exists u :: u in users && users[u].email == email && u != user {
        return Failed(AlreadyRegistered);
      }
      if user !in users {
        return Failed(NoSuchUser);
      }
      users := users[user := users[user].(email := email, isVerified := true, updatedAt := now)];
      return Done;
    }

    method ResetPassword(email: string, codeAccepted: bool, password: string, now: Time) returns (r: Result)
      requires Valid()
      modifies this
      ensures Valid() && (Contents(), r) == Accounts.ResetPassword(old(Contents()), email, codeAccepted, password, now)
    {
      ResetPasswordKeepsInv(Contents(), email, codeAccepted, password, now);
      if !codeAccepted {
        return Failed(BadCode);
      }
      var found := LoadUserByEmail(email);
      if found.None? {
        return Failed(NoSuchUser);
      }
      var user := found.value;
      if !users[user].isActive {
        return Failed(Suspended);
      }
      if !users[user].isVerified {
        return Failed(NotVerified);
      }
      if users[user].password == Some(password) {
        return Failed(SamePassword);
      }
      StoreHash(user, password, now);
      return Done;
    }

    method ChangePassword(user: UserId, current: string, password: string, now: Time) returns (r: Result)
      requires Valid()
      modifies this
      ensures Valid() && (Contents(), r) == Accounts.ChangePassword(old(Contents()), user, current, password, now)
    {
      ChangePasswordKeepsInv(Contents(), user, current, password, now);
      if user !in users {
        return Failed(NoSuchUser);
      }
      if !users[user].isActive {
        return Failed(Suspended);
      }
      if users[user].password.None? {
        return Failed(NoPassword);
      }
      if users[user].password.value != current {
        return Failed(WrongPassword);
      }
      if current == password {
        return Failed(SamePassword);
      }
      StoreHash(user, password, now);
      return Done;
    }

    method SetPassword(user: UserId, password: string, now: Time) returns (r: Result)
      requires Valid()
      modifies this
      ensures Valid() && (Contents(), r) == Accounts.SetPassword(old(Contents()), user, password, now)
    {
      SetPasswordKeepsInv(Contents(), user, password, now);
      if user !in users {
        return Failed(NoSuchUser);
      }
      if !users[user].isActive {
        return Failed(Suspended);
      }
      if users[user].password.Some? {
        return Failed(HasPassword);
      }
      StoreHash(user, password, now);
      return Done;
    }

    /** DELETE FROM users WHERE not verified and old, cascading to links, tickets and tokens. */
    method DeleteAbandonedUsers(now: Time)
      modifies this`users, this`links, this`tickets, this`granted, this`sessions
      ensures var after := Cleanup(old(Contents()), now);
        users == after.users && links == after.links && granted == after.granted && sessions == after.sessions
      ensures tickets == map t | t in old(tickets) && old(tickets)[t].userId in users :: old(tickets)[t]
    {
      users := map u | u in users && !Abandoned(users[u], now) :: users[u];
      links := map k | k in links && links[k] in users :: links[k];
      tickets := map t | t in tickets && tickets[t].userId in users :: tickets[t];
      granted := set u | u in granted && u in users;
      sessions := set u | u in sessions && u in users;
    }

    /** The two deletes of the periodic cleanup that concern accounts. */
    method CleanupAccounts(now: Time)
      requires Valid()
      modifies this
      ensures Valid() && Contents() == Cleanup(old(Contents()), now)
    {
      CleanupKeepsInv(Contents(), now);
      tickets := map t | t in tickets && tickets[t].expiresAt > now :: tickets[t];
      DeleteAbandonedUsers(now);
      assert tickets == Cleanup(old(Contents()), now).tickets;
    }

    method SetActive(user: UserId, active: bool)
      requires Valid()
      modifies this`users
      ensures Valid() && Contents() == Suspend(old(Contents()), user, active)
    {
      SuspendKeepsInv(Contents(), user, active);
      if user in users {
        users := users[user := users[user].(isActive := active)];
      }
    }

    method SetUpdatedAt(user: UserId, now: Time)
      requires Valid()
      modifies this`users
      ensures Valid() && Contents() == Touch(old(Contents()), user, now)
    {
      TouchKeepsInv(Contents(), user, now);
      if user in users {
        users := users[user := users[user].(updatedAt := now)];
      }
    }

    // ---- any transactions, and a sign-in with any transactions before its tokens ----

    method Execute(op: Op)
      requires Valid() && Possible(Contents(), op)
      modifies this
      ensures Valid() && Contents() == Step(old(Contents()), op)
    {
      match op
      case RegisterOp(email, password, now, newId) => var _ := RegisterAccount(email, password, now, newId);
      case VerifyOp(email, codeAccepted, legacy, now, newId) => var _ := VerifyEmail(email, codeAccepted, legacy, now, newId);
      case LoginOp(email, password) => var _ := CheckPassword(email, password);
      case SocialOp(identity, now, newId) => var _ := AuthenticateSocialIdentity(identity, now, newId);
      case ExchangeOp(presented, now) => var _ := RedeemTicket(presented, now);
      case IssueTokensOp(user) => var _ := CreateRefreshToken(user);
      case CreateTicketOp(user, ticket, now) => var _ := CreateOauthLoginTicket(user, ticket, now);
      case LinkOp(user, identity, now) => var _ := LinkSocialIdentity(user, identity, now);
      case ChangeEmailOp(user, email, codeAccepted, now) => var _ := VerifyEmailChange(user, email, codeAccepted, now);
      case ResetPasswordOp(email, codeAccepted, password, now) => var _ := ResetPassword(email, codeAccepted, password, now);
      case ChangePasswordOp(user, current, password, now) => var _ := ChangePassword(user, current, password, now);
      case SetPasswordOp(user, password, now) => var _ := SetPassword(user, password, now);
      case CleanupOp(now) => CleanupAccounts(now);
      case SuspendOp(user, active) => SetActive(user, active);
      case TouchOp(user, now) => SetUpdatedAt(user, now);
    }

    /** The tables follow the specification along every run. */
    method ExecuteAll(ops: seq<Op>)
      requires Valid() && ValidRun(Contents(), ops)
      modifies this
      ensures Valid() && Contents() == Run(old(Contents()), ops)
    {
      ghost var start := Contents();
      var i := 0;
      while i < |ops|
        invariant 0 <= i <= |ops| && Valid()
        invariant ValidRun(Contents(), ops[i..]) && Run(Contents(), ops[i..]) == Run(start, ops)
      {
        assert ops[i..][0] == ops[i] && ops[i..][1..] == ops[i + 1..];
        Execute(ops[i]);
        i := i + 1;
      }
    }

    /** What follows a sign-in that let a user in: other transactions, then the tokens. The insert
        succeeds whatever they were. */
    method IssueTokensForUser(user: UserId, others: seq<Op>) returns (ok: bool)
      requires Valid() && user in granted && ValidRun(Contents(), others)
      modifies this
      ensures Valid() && ok
      ensures Contents() == IssueTokens(Run(old(Contents()), others), user)
      ensures Verified(Contents(), user) && user in sessions
    {
      TokensFollowSignIn(Contents(), others, user, "", 0);
      ExecuteAll(others);
      ok := CreateRefreshToken(user);
    }

    method VerifyEmailAndIssueTokens(email: string, codeAccepted: bool, legacy: Option<string>, now: Time, newId: UserId,
                                     others: seq<Op>) returns (r: Result)
      requires Valid() && newId !in ids
      requires ValidRun(Accounts.VerifyEmail(Contents(), email, codeAccepted, legacy, now, newId).0, others)
      modifies this
      ensures Valid() && r == Accounts.VerifyEmail(old(Contents()), email, codeAccepted, legacy, now, newId).1
      ensures var decided := Accounts.VerifyEmail(old(Contents()), email, codeAccepted, legacy, now, newId).0;
        if r.LoggedIn? then Contents() == IssueTokens(Run(decided, others), r.user) && r.user in sessions && Verified(Contents(), r.user)
        else Contents() == old(Contents())
    {
      r := VerifyEmail(email, codeAccepted, legacy, now, newId);
      if r.LoggedIn? {
        var ok := IssueTokensForUser(r.user, others);
      }
    }

    method ExchangeOauthLoginTicket(ticket: string, now: Time, others: seq<Op>) returns (r: Result)
      requires Valid() && ValidRun(ExchangeTicket(Contents(), ticket, now).0, others)
      modifies this
      ensures Valid() && r == ExchangeTicket(old(Contents()), ticket, now).1
      ensures var decided := ExchangeTicket(old(Contents()), ticket, now).0;
        if r.LoggedIn? then Contents() == IssueTokens(Run(decided, others), r.user) && r.user in sessions && Verified(Contents(), r.user)
        else Contents() == decided
    {
      r := RedeemTicket(ticket, now);
      if r.LoggedIn? {
        var ok := IssueTokensForUser(r.user, others);
      }
    }

    method Login(email: string, password: string, others: seq<Op>) returns (r: Result)
      requires Valid() && ValidRun(Accounts.Login(Contents(), email, password).0, others)
      modifies this
      ensures Valid() && r == Accounts.Login(old(Contents()), email, password).1
      ensures var decided := Accounts.Login(old(Contents()), email, password).0;
        if r.LoggedIn? then Contents() == IssueTokens(Run(decided, others), r.user) && r.user in sessions && Verified(Contents(), r.user)
        else Contents() == old(Contents())
    {
      LoginRefusal(Contents(), email, password);
      r := CheckPassword(email, password);
      if r.LoggedIn? {
        var ok := IssueTokensForUser(r.user, others);
      }
    }

    lemma LoginRefusal(s: State, email: string, password: string)
      ensures Accounts.Login(s, email, password).1.Failed? ==> Accounts.Login(s, email, password).0 == s
    {
    }
  }
}
