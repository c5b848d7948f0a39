// src/auth/service.rs, src/user/service.rs and src/shared/maintenance.rs: accounts, their
// verification, provider links and login tickets, and the cleanup of unverified accounts.
module Accounts {
  import opened Common

  type UserId = nat

  const UNVERIFIED_USER_RETENTION: int := 7 * DAY
  const TICKET_EXPIRY: int := 5 * MINUTE

  /** A stored password hash is named by the password it verifies. */
  datatype User = User(email: string, isActive: bool, isVerified: bool, password: Option<string>, updatedAt: Time)

  /** UNIQUE (provider_name, provider_id). */
  datatype Key = Key(provider: string, id: string)

  datatype Identity = Identity(key: Key, email: string)

  datatype Ticket = Ticket(userId: UserId, expiresAt: Time)

  /** The tables, and three histories: the ids ever used, the users a sign-in ever let in (whose
      tokens or ticket are made by a later statement), and those ever given tokens. */
  datatype State = State(
    users: map<UserId, User>,
    links: map<Key, UserId>,
    tickets: map<string, Ticket>,
    ids: set<UserId>,
    granted: set<UserId>,
    sessions: set<UserId>
  )

  datatype Error =
    | Suspended | AlreadyVerified | AlreadyRegistered | BadCode | BadCredentials | NotVerified
    | LinkedToAnotherAccount | AccountExists | LinkedToAnotherUser | NoSuchUser | TicketInvalid | TicketExpired
    | NoPassword | HasPassword | WrongPassword | SamePassword

  datatype Result = Done | LoggedIn(user: UserId) | Failed(error: Error)

  // ---- queries ----

  ghost function ByEmail(s: State, email: string): (r: Option<UserId>)
    ensures r.Some? ==> r.value in s.users && s.users[r.value].email == email
    ensures r.None? ==> forall u :: u in s.users ==> s.users[u].email != email
  {
    if exists u :: u in s.users && s.users[u].email == email
    then var u :| u in s.users && s.users[u].email == email; Some(u)
    else None
  }

  /** The provider id this user is linked to at a provider. */
  ghost function LinkOf(s: State, user: UserId, provider: string): (r: Option<string>)
    ensures r.Some? ==> Key(provider, r.value) in s.links && s.links[Key(provider, r.value)] == user
    ensures r.None? ==> forall k :: k in s.links && s.links[k] == user ==> k.provider != provider
  {
    if exists k :: k in s.links && s.links[k] == user && k.provider == provider
    then var k :| k in s.links && s.links[k] == user && k.provider == provider; Some(k.id)
    else None
  }

  // ---- updates ----

  function Verify(s: State, u: UserId, now: Time): State
    requires u in s.users
  {
    s.(users := s.users[u := s.users[u].(isVerified := true, updatedAt := now)])
  }

  /** A social address counts as verified when it is the account's own. */
  function MaybeVerify(s: State, u: UserId, email: string, now: Time): State
    requires u in s.users
  {
    if s.users[u].isVerified || s.users[u].email != email then s else Verify(s, u, now)
  }

  function AddLink(s: State, u: UserId, key: Key): State {
    s.(links := s.links[key := u])
  }

  /** A sign-in has been decided; its tokens are still to be made. */
  function LetIn(s: State, u: UserId): State {
    s.(granted := s.granted + {u})
  }

  function SetHash(s: State, u: UserId, password: string, now: Time): State
    requires u in s.users
  {
    s.(users := s.users[u := s.users[u].(password := Some(password), updatedAt := now)])
  }

  function AddUser(s: State, u: UserId, user: User): State {
    s.(users := s.users[u := user], ids := s.ids + {u})
  }

  // ---- the service functions ----

  ghost function Register(s: State, email: string, password: string, now: Time, newId: UserId): (State, Result) {
    var found := ByEmail(s, email);
    if found.None? then (AddUser(s, newId, User(email, true, false, Some(password), now)), Done)
    else
      var u := found.value;
      if !s.users[u].isActive then (s, Failed(Suspended))
      else if s.users[u].isVerified then (s, Failed(AlreadyRegistered))
      else (SetHash(s, u, password, now), Done)
  }

  /** The code is checked by the verification tables. Without an account this is the legacy path,
      where the pending record itself holds the password. */
  ghost function VerifyEmail(s: State, email: string, codeAccepted: bool, legacy: Option<string>, now: Time,
                             newId: UserId): (State, Result) {
    var found := ByEmail(s, email);
    if found.None? then
      if !codeAccepted then (s, Failed(BadCode))
      else if legacy.None? then (s, Failed(NoPassword))
      else (LetIn(AddUser(s, newId, User(email, true, true, legacy, now)), newId), LoggedIn(newId))
    else
      var u := found.value;
      if !s.users[u].isActive then (s, Failed(Suspended))
      else if s.users[u].isVerified then (s, Failed(AlreadyVerified))
      else if !codeAccepted then (s, Failed(BadCode))
      else (LetIn(Verify(s, u, now), u), LoggedIn(u))
  }

  ghost function Login(s: State, email: string, password: string): (State, Result) {
    var found := ByEmail(s, email);
    if found.None? then (s, Failed(BadCredentials))
    else
      var u := found.value;
      if !s.users[u].isActive then (s, Failed(Suspended))
      else if s.users[u].password != Some(password) then (s, Failed(BadCredentials))
      else if !s.users[u].isVerified then (s, Failed(NotVerified))
      else (LetIn(s, u), LoggedIn(u))
  }

  ghost function ResolveSocialUser(s: State, identity: Identity, now: Time, newId: UserId): (State, Result) {
    if identity.key in s.links && s.links[identity.key] in s.users then
      var u := s.links[identity.key];
      if !s.users[u].isActive then (s, Failed(Suspended))
      else (MaybeVerify(s, u, identity.email, now), LoggedIn(u))
    else
      var found := ByEmail(s, identity.email);
      if found.None? then
        (AddLink(AddUser(s, newId, User(identity.email, true, true, None, now)), newId, identity.key), LoggedIn(newId))
      else
        var u := found.value;
        var existing := LinkOf(s, u, identity.key.provider);
        if !s.users[u].isActive then (s, Failed(Suspended))
        else if existing.Some? then
          if existing.value != identity.key.id then (s, Failed(LinkedToAnotherAccount))
          else (MaybeVerify(s, u, identity.email, now), LoggedIn(u))
        else if s.users[u].isVerified then (s, Failed(AccountExists))
        else (MaybeVerify(AddLink(s, u, identity.key), u, identity.email, now), LoggedIn(u))
  }

  /** Sign in with a provider; tokens or a ticket follow in a statement of their own. */
  ghost function SocialSignIn(s: State, identity: Identity, now: Time, newId: UserId): (State, Result) {
    var (s', r) := ResolveSocialUser(s, identity, now, newId);
    (if r.LoggedIn? then LetIn(s', r.user) else s', r)
  }

  /** The statement after a sign-in: the refresh-token row, which a foreign key ties to the user. */
  function IssueTokens(s: State, u: UserId): State {
    if u in s.users then s.(sessions := s.sessions + {u}) else s
  }

  /** Or the ticket to exchange for tokens, likewise. */
  function CreateTicket(s: State, u: UserId, ticket: string, now: Time): State {
    if u in s.users then s.(tickets := s.tickets[ticket := Ticket(u, now + TICKET_EXPIRY)]) else s
  }

  ghost function LinkSocialIdentity(s: State, user: UserId, identity: Identity, now: Time): (State, Result) {
    if user !in s.users then (s, Failed(NoSuchUser))
    else if !s.users[user].isActive then (s, Failed(Suspended))
    else
      var existing := LinkOf(s, user, identity.key.provider);
      if existing.Some? then
        if existing.value != identity.key.id then (s, Failed(LinkedToAnotherAccount))
        else (MaybeVerify(s, user, identity.email, now), Done)
      else if identity.key in s.links && s.links[identity.key] in s.users && s.links[identity.key] != user then
        (s, Failed(LinkedToAnotherUser))
      else (MaybeVerify(AddLink(s, user, identity.key), user, identity.email, now), Done)
  }

  function ExchangeTicket(s: State, ticket: string, now: Time): (State, Result) {
    if ticket !in s.tickets then (s, Failed(TicketInvalid))
    else
      var t, s' := s.tickets[ticket], s.(tickets := s.tickets - {ticket});
      if now > t.expiresAt then (s', Failed(TicketExpired))
      else if t.userId !in s.users || !s.users[t.userId].isActive then (s, Failed(NoSuchUser))
      else (LetIn(s', t.userId), LoggedIn(t.userId))
  }

  function ChangeEmail(s: State, user: UserId, email: string, codeAccepted: bool, now: Time): (State, Result) {
    if !codeAccepted then (s, Failed(BadCode))
    else if exists u :: u in s.users && s.users[u].email == email && u != user then (s, Failed(AlreadyRegistered))
    else if user !in s.users then (s, Failed(NoSuchUser))
    else (s.(users := s.users[user := s.users[user].(email := email, isVerified := true, updatedAt := now)]), Done)
  }

  // ---- passwords ----

  ghost function ResetPassword(s: State, email: string, codeAccepted: bool, password: string, now: Time): (State, Result) {
    var found := ByEmail(s, email);
    if !codeAccepted then (s, Failed(BadCode))
    else if found.None? then (s, Failed(NoSuchUser))
    else
      var u := found.value;
      if !s.users[u].isActive then (s, Failed(Suspended))
      else if !s.users[u].isVerified then (s, Failed(NotVerified))
      else if s.users[u].password == Some(password) then (s, Failed(SamePassword))
      else (SetHash(s, u, password, now), Done)
  }

  function ChangePassword(s: State, u: UserId, current: string, password: string, now: Time): (State, Result) {
    if u !in s.users then (s, Failed(NoSuchUser))
    else if !s.users[u].isActive then (s, Failed(Suspended))
    else if s.users[u].password.None? then (s, Failed(NoPassword))
    else if s.users[u].password != Some(current) then (s, Failed(WrongPassword))
    else if s.users[u].password == Some(password) then (s, Failed(SamePassword))
    else (SetHash(s, u, password, now), Done)
  }

  function SetPassword(s: State, u: UserId, password: string, now: Time): (State, Result) {
    if u !in s.users then (s, Failed(NoSuchUser))
    else if !s.users[u].isActive then (s, Failed(Suspended))
    else if s.users[u].password.Some? then (s, Failed(HasPassword))
    else (SetHash(s, u, password, now), Done)
  }

  // ---- maintenance ----

  predicate Abandoned(u: User, now: Time) {
    !u.isVerified && u.updatedAt <= now - UNVERIFIED_USER_RETENTION
  }

  /** Expired tickets go, and abandoned accounts with everything that refers to them. */
  function Cleanup(s: State, now: Time): State {
    var users := map u | u in s.users && !Abandoned(s.users[u], now) :: s.users[u];
    s.(users := users,
       links := map k | k in s.links && s.links[k] in users :: s.links[k],
       tickets := map t | t in s.tickets && s.tickets[t].expiresAt > now && s.tickets[t].userId in users :: s.tickets[t],
       granted := (set u | u in s.granted && u in users),
       sessions := (set u | u in s.sessions && u in users))
  }

  function Suspend(s: State, user: UserId, active: bool): State {
    if user in s.users then s.(users := s.users[user := s.users[user].(isActive := active)]) else s
  }

  function Touch(s: State, user: UserId, now: Time): State {
    if user in s.users then s.(users := s.users[user := s.users[user].(updatedAt := now)]) else s
  }

  // ---- runs ----

  datatype Op =
    | RegisterOp(email: string, password: string, now: Time, newId: UserId)
    | VerifyOp(email: string, codeAccepted: bool, legacy: Option<string>, now: Time, newId: UserId)
    | LoginOp(email: string, password: string)
    | SocialOp(identity: Identity, now: Time, newId: UserId)
    | ExchangeOp(presented: string, now: Time)
    | IssueTokensOp(user: UserId)
    | CreateTicketOp(user: UserId, ticket: string, now: Time)
    | LinkOp(user: UserId, identity: Identity, now: Time)
    | ChangeEmailOp(user: UserId, email: string, codeAccepted: bool, now: Time)
    | ResetPasswordOp(email: string, codeAccepted: bool, password: string, now: Time)
    | ChangePasswordOp(user: UserId, current: string, password: string, now: Time)
    | SetPasswordOp(user: UserId, password: string, now: Time)
    | CleanupOp(now: Time)
    | SuspendOp(user: UserId, active: bool)
    | TouchOp(user: UserId, now: Time)       // resending a code, editing a profile

  /** A user id that comes with an access token. */
  predicate Authenticated(s: State, user: UserId) {
    user in s.users ==> user in s.sessions
  }

  /** Ids and tickets are new, tokens and tickets are made after a sign-in only, and linking and
      changing the address need an access token. */
  predicate Possible(s: State, op: Op) {
    match op
    case RegisterOp(_, _, _, newId) => newId !in s.ids
    case VerifyOp(_, _, _, _, newId) => newId !in s.ids
    case SocialOp(_, _, newId) => newId !in s.ids
    case IssueTokensOp(user) => user in s.granted
    case CreateTicketOp(user, ticket, _) => user in s.granted && ticket !in s.tickets
    case LinkOp(user, _, _) => Authenticated(s, user)
    case ChangeEmailOp(user, _, _, _) => Authenticated(s, user)
    case _ => true
  }

  ghost function Step(s: State, op: Op): State {
    match op
    case RegisterOp(email, password, now, newId) => Register(s, email, password, now, newId).0
    case VerifyOp(email, codeAccepted, legacy, now, newId) => VerifyEmail(s, email, codeAccepted, legacy, now, newId).0
    case LoginOp(email, password) => Login(s, email, password).0
    case SocialOp(identity, now, newId) => SocialSignIn(s, identity, now, newId).0
    case ExchangeOp(presented, now) => ExchangeTicket(s, presented, now).0
    case IssueTokensOp(user) => IssueTokens(s, user)
    case CreateTicketOp(user, ticket, now) => CreateTicket(s, user, ticket, now)
    case LinkOp(user, identity, now) => LinkSocialIdentity(s, user, identity, now).0
    case ChangeEmailOp(user, email, codeAccepted, now) => ChangeEmail(s, user, email, codeAccepted, now).0
    case ResetPasswordOp(email, codeAccepted, password, now) => ResetPassword(s, email, codeAccepted, password, now).0
    case ChangePasswordOp(user, current, password, now) => ChangePassword(s, user, current, password, now).0
    case SetPasswordOp(user, password, now) => SetPassword(s, user, password, now).0
    case CleanupOp(now) => Cleanup(s, now)
    case SuspendOp(user, active) => Suspend(s, user, active)
    case TouchOp(user, now) => Touch(s, user, now)
  }

  ghost predicate ValidRun(s: State, ops: seq<Op>)
    decreases |ops|
  {
    ops == [] || (Possible(s, ops[0]) && ValidRun(Step(s, ops[0]), ops[1..]))
  }

  ghost function Run(s: State, ops: seq<Op>): State
    requires ValidRun(s, ops)
    decreases |ops|
  {
    if ops == [] then s else Run(Step(s, ops[0]), ops[1..])
  }

  const Empty: State := State(map[], map[], map[], {}, {}, {})

  // ---- the invariant ----

  ghost predicate UniqueEmails(users: map<UserId, User>) {
    forall u, v :: u in users && v in users && users[u].email == users[v].email ==> u == v
  }

  ghost predicate Verified(s: State, u: UserId) {
    u in s.users && s.users[u].isVerified
  }

  /** UNIQUE (user_id, provider_name). */
  ghost predicate OneLinkPerProvider(links: map<Key, UserId>) {
    forall k, l :: k in links && l in links && links[k] == links[l] && k.provider == l.provider ==> k == l
  }

  /** Whoever holds a token, a ticket or a link, or is about to, is verified. */
  ghost predicate HoldersVerified(s: State) {
    && (forall k :: k in s.links ==> Verified(s, s.links[k]))
    && (forall t :: t in s.tickets ==> Verified(s, s.tickets[t].userId))
    && (forall u :: u in s.granted ==> Verified(s, u))
    && (forall u :: u in s.sessions ==> Verified(s, u))
  }

  ghost predicate Inv(s: State) {
    s.users.Keys <= s.ids && UniqueEmails(s.users) && OneLinkPerProvider(s.links) && HoldersVerified(s)
  }

  lemma SetHashKeepsInv(s: State, u: UserId, password: string, now: Time)
    requires Inv(s) && u in s.users
    ensures Inv(SetHash(s, u, password, now)) && Keeps(s, SetHash(s, u, password, now))
  {
  }

  lemma AddUserKeepsInv(s: State, u: UserId, user: User)
    requires Inv(s) && u !in s.ids && forall v :: v in s.users ==> s.users[v].email != user.email
    ensures Inv(AddUser(s, u, user)) && Keeps(s, AddUser(s, u, user))
  {
  }

  lemma LetInKeepsInv(s: State, u: UserId)
    requires Inv(s) && Verified(s, u)
    ensures Inv(LetIn(s, u)) && Keeps(s, LetIn(s, u))
  {
  }

  lemma RegisterKeepsInv(s: State, email: string, password: string, now: Time, newId: UserId)
    requires Inv(s) && newId !in s.ids
    ensures Inv(Register(s, email, password, now, newId).0) && Keeps(s, Register(s, email, password, now, newId).0)
  {
    var found := ByEmail(s, email);
    if found.None? {
      AddUserKeepsInv(s, newId, User(email, true, false, Some(password), now));
    } else {
      SetHashKeepsInv(s, found.value, password, now);
    }
  }

  lemma VerifyKeepsInv(s: State, email: string, codeAccepted: bool, legacy: Option<string>, now: Time, newId: UserId)
    requires Inv(s) && newId !in s.ids
    ensures var s' := VerifyEmail(s, email, codeAccepted, legacy, now, newId).0; Inv(s') && Keeps(s, s')
  {
    var found := ByEmail(s, email);
    if found.None? {
      var user := User(email, true, true, legacy, now);
      AddUserKeepsInv(s, newId, user);
      LetInKeepsInv(AddUser(s, newId, user), newId);
    } else {
      VerifyingKeepsInv(s, found.value, email, now);
      LetInKeepsInv(Verify(s, found.value, now), found.value);
    }
  }

  lemma LoginKeepsInv(s: State, email: string, password: string)
    requires Inv(s)
    ensures Inv(Login(s, email, password).0) && Keeps(s, Login(s, email, password).0)
  {
    var found := ByEmail(s, email);
    if found.Some? && s.users[found.value].isVerified {
      LetInKeepsInv(s, found.value);
    }
  }

  lemma VerifyingKeepsInv(s: State, u: UserId, email: string, now: Time)
    requires Inv(s) && u in s.users
    ensures Inv(Verify(s, u, now)) && Keeps(s, Verify(s, u, now))
    ensures Inv(MaybeVerify(s, u, email, now)) && Keeps(s, MaybeVerify(s, u, email, now))
  {
  }

  lemma LinkingKeepsInv(s: State, u: UserId, key: Key)
    requires Inv(s) && Verified(s, u) && key !in s.links && LinkOf(s, u, key.provider).None?
    ensures Inv(AddLink(s, u, key))
  {
  }

  /** An unverified account that signs in with its own address: the link, then the verification. */
  lemma LinkThenVerify(s: State, u: UserId, key: Key, email: string, now: Time)
    requires Inv(s) && u in s.users && s.users[u].email == email && !s.users[u].isVerified
    requires key !in s.links && LinkOf(s, u, key.provider).None?
    ensures Inv(MaybeVerify(AddLink(s, u, key), u, email, now)) && Verified(MaybeVerify(AddLink(s, u, key), u, email, now), u)
  {
    VerifyingKeepsInv(s, u, email, now);
    LinkingKeepsInv(Verify(s, u, now), u, key);
    assert MaybeVerify(AddLink(s, u, key), u, email, now) == AddLink(Verify(s, u, now), u, key);
  }

  lemma CreatingKeepsInv(s: State, u: UserId, user: User, key: Key)
    requires Inv(s) && u !in s.ids && user.isVerified && key !in s.links
    requires forall v :: v in s.users ==> s.users[v].email != user.email
    ensures Inv(AddLink(AddUser(s, u, user), u, key))
  {
  }

  lemma ResolveKeepsInv(s: State, identity: Identity, now: Time, newId: UserId)
    requires Inv(s) && newId !in s.ids
    ensures Inv(ResolveSocialUser(s, identity, now, newId).0)
    ensures var (s', r) := ResolveSocialUser(s, identity, now, newId);
            r.LoggedIn? ==> Verified(s', r.user) && identity.key in s'.links && s'.links[identity.key] == r.user
  {
    if identity.key in s.links {
      assert Verified(s, s.links[identity.key]);
      VerifyingKeepsInv(s, s.links[identity.key], identity.email, now);
    } else {
      var found := ByEmail(s, identity.email);
      if found.None? {
        CreatingKeepsInv(s, newId, User(identity.email, true, true, None, now), identity.key);
      } else {
        var existing := LinkOf(s, found.value, identity.key.provider);
        assert existing.Some? ==> Key(identity.key.provider, existing.value) != identity.key;
        if existing.None? && !s.users[found.value].isVerified {
          LinkThenVerify(s, found.value, identity.key, identity.email, now);
        }
      }
    }
  }

  lemma SocialKeepsInv(s: State, identity: Identity, now: Time, newId: UserId)
    requires Inv(s) && newId !in s.ids
    ensures var s' := SocialSignIn(s, identity, now, newId).0; Inv(s') && Keeps(s, s')
  {
    var (s', r) := ResolveSocialUser(s, identity, now, newId);
    ResolveKeepsInv(s, identity, now, newId);
    ResolveKeeps(s, identity, now, newId);
    if r.LoggedIn? {
      LetInKeepsInv(s', r.user);
    }
  }

  lemma LinkKeepsInv(s: State, user: UserId, identity: Identity, now: Time)
    requires Inv(s) && (user in s.users ==> Verified(s, user))
    ensures Inv(LinkSocialIdentity(s, user, identity, now).0)
  {
    if identity.key in s.links {
      assert Verified(s, s.links[identity.key]);
    } else if user in s.users && LinkOf(s, user, identity.key.provider).None? {
      LinkingKeepsInv(s, user, identity.key);
    }
  }

  lemma CleanupKeepsInv(s: State, now: Time)
    requires Inv(s)
    ensures Inv(Cleanup(s, now))
  {
    var s' := Cleanup(s, now);
    forall u | Verified(s, u) ensures Verified(s', u) { }
  }

  lemma ExchangeKeepsInv(s: State, ticket: string, now: Time)
    requires Inv(s)
    ensures Inv(ExchangeTicket(s, ticket, now).0) && Keeps(s, ExchangeTicket(s, ticket, now).0)
  {
    if ticket in s.tickets {
      assert Verified(s, s.tickets[ticket].userId);
      var s' := s.(tickets := s.tickets - {ticket});
      assert Inv(s');
      LetInKeepsInv(s', s.tickets[ticket].userId);
    }
  }

  lemma IssueKeepsInv(s: State, user: UserId)
    requires Inv(s) && user in s.granted
    ensures Inv(IssueTokens(s, user)) && Keeps(s, IssueTokens(s, user))
  {
  }

  lemma TicketKeepsInv(s: State, user: UserId, ticket: string, now: Time)
    requires Inv(s) && user in s.granted
    ensures Inv(CreateTicket(s, user, ticket, now)) && Keeps(s, CreateTicket(s, user, ticket, now))
  {
    assert Verified(s, user);
  }

  lemma ChangeEmailKeepsInv(s: State, user: UserId, email: string, codeAccepted: bool, now: Time)
    requires Inv(s)
    ensures Inv(ChangeEmail(s, user, email, codeAccepted, now).0) && Keeps(s, ChangeEmail(s, user, email, codeAccepted, now).0)
  {
  }

  lemma ResetPasswordKeepsInv(s: State, email: string, codeAccepted: bool, password: string, now: Time)
    requires Inv(s)
    ensures var s' := ResetPassword(s, email, codeAccepted, password, now).0; Inv(s') && Keeps(s, s')
  {
    var found := ByEmail(s, email);
    if found.Some? {
      SetHashKeepsInv(s, found.value, password, now);
    }
  }

  lemma ChangePasswordKeepsInv(s: State, user: UserId, current: string, password: string, now: Time)
    requires Inv(s)
    ensures var s' := ChangePassword(s, user, current, password, now).0; Inv(s') && Keeps(s, s')
  {
    if user in s.users {
      SetHashKeepsInv(s, user, password, now);
      assert ChangePassword(s, user, current, password, now).0 in {s, SetHash(s, user, password, now)};
    }
    KeepsItself(s);
  }

  lemma KeepsItself(s: State)
    ensures Keeps(s, s)
  {
  }

  lemma SetPasswordKeepsInv(s: State, user: UserId, password: string, now: Time)
    requires Inv(s)
    ensures var s' := SetPassword(s, user, password, now).0; Inv(s') && Keeps(s, s')
  {
    if user in s.users {
      SetHashKeepsInv(s, user, password, now);
    }
  }

  lemma SuspendKeepsInv(s: State, user: UserId, active: bool)
    requires Inv(s)
    ensures Inv(Suspend(s, user, active)) && Keeps(s, Suspend(s, user, active))
  {
  }

  lemma TouchKeepsInv(s: State, user: UserId, now: Time)
    requires Inv(s)
    ensures Inv(Touch(s, user, now)) && Keeps(s, Touch(s, user, now))
  {
  }

  // ---- what a run never takes back ----

  /** A verified account stays, verified; a link stays, to the same user. */
  ghost predicate Keeps(s: State, s': State) {
    && (forall u :: Verified(s, u) ==> Verified(s', u))
    && (forall k :: k in s.links ==> k in s'.links && s'.links[k] == s.links[k])
    && s.granted <= s'.granted
  }

  lemma ResolveKeeps(s: State, identity: Identity, now: Time, newId: UserId)
    requires Inv(s) && newId !in s.ids
    ensures Keeps(s, ResolveSocialUser(s, identity, now, newId).0)
  {
  }

  lemma LinkKeeps(s: State, user: UserId, identity: Identity, now: Time)
    requires Inv(s) && (user in s.users ==> Verified(s, user))
    ensures Keeps(s, LinkSocialIdentity(s, user, identity, now).0)
  {
  }

  lemma CleanupKeeps(s: State, now: Time)
    requires Inv(s)
    ensures Keeps(s, Cleanup(s, now))
  {
    forall u | u in s.granted ensures u in Cleanup(s, now).granted {
      assert Verified(s, u);
    }
  }

  lemma StepKeepsInv(s: State, op: Op)
    requires Inv(s) && Possible(s, op)
    ensures Inv(Step(s, op)) && Keeps(s, Step(s, op))
  {
    match op
    case RegisterOp(email, password, now, newId) => RegisterKeepsInv(s, email, password, now, newId);
    case VerifyOp(email, codeAccepted, legacy, now, newId) => VerifyKeepsInv(s, email, codeAccepted, legacy, now, newId);
    case LoginOp(email, password) => LoginKeepsInv(s, email, password);
    case SocialOp(identity, now, newId) => SocialKeepsInv(s, identity, now, newId);
    case ExchangeOp(presented, now) => ExchangeKeepsInv(s, presented, now);
    case IssueTokensOp(user) => IssueKeepsInv(s, user);
    case CreateTicketOp(user, ticket, now) => TicketKeepsInv(s, user, ticket, now);
    case LinkOp(user, identity, now) =>
      AuthenticatedIsVerified(s, user);
      LinkKeepsInv(s, user, identity, now);
      LinkKeeps(s, user, identity, now);
    case ChangeEmailOp(user, email, codeAccepted, now) => ChangeEmailKeepsInv(s, user, email, codeAccepted, now);
    case ResetPasswordOp(email, codeAccepted, password, now) => ResetPasswordKeepsInv(s, email, codeAccepted, password, now);
    case ChangePasswordOp(user, current, password, now) => ChangePasswordKeepsInv(s, user, current, password, now);
    case SetPasswordOp(user, password, now) => SetPasswordKeepsInv(s, user, password, now);
    case CleanupOp(now) =>
      CleanupKeepsInv(s, now);
      CleanupKeeps(s, now);
    case SuspendOp(user, active) => SuspendKeepsInv(s, user, active);
    case TouchOp(user, now) => TouchKeepsInv(s, user, now);
  }

  lemma AuthenticatedIsVerified(s: State, user: UserId)
    requires Inv(s) && Authenticated(s, user)
    ensures user in s.users ==> Verified(s, user)
  {
  }

  lemma {:induction false} RunKeeps(s: State, ops: seq<Op>)
    requires Inv(s) && ValidRun(s, ops)
    ensures Inv(Run(s, ops)) && Keeps(s, Run(s, ops))
    decreases |ops|
  {
    if ops != [] {
      StepKeepsInv(s, ops[0]);
      RunKeeps(Step(s, ops[0]), ops[1..]);
    }
  }

  ghost predicate Holds(s: State, u: UserId) {
    u in s.granted || u in s.sessions || (exists k :: k in s.links && s.links[k] == u) || (exists t :: t in s.tickets && s.tickets[t].userId == u)
  }

  /** In every reachable state whoever holds tokens, a ticket or a provider link, or has been let in
      and is about to, is a verified account, and no continuation, its cleanups included, deletes it or makes it unverified. */
  lemma HoldersAreVerifiedForEver(ops: seq<Op>, later: seq<Op>, u: UserId)
    requires ValidRun(Empty, ops) && Holds(Run(Empty, ops), u)
    requires ValidRun(Run(Empty, ops), later)
    ensures Verified(Run(Empty, ops), u)
    ensures Verified(Run(Run(Empty, ops), later), u)
  {
    RunKeeps(Empty, ops);
    RunKeeps(Run(Empty, ops), later);
  }

  /** Provider links are injective both ways in every reachable state: an identity has one user by
      construction, and a user has at most one identity at each provider. */
  lemma LinksInjective(ops: seq<Op>, k: Key, l: Key)
    requires ValidRun(Empty, ops)
    requires var links := Run(Empty, ops).links; k in links && l in links && links[k] == links[l]
    ensures k.provider == l.provider ==> k == l
  {
    RunKeeps(Empty, ops);
  }

  /** Once linked, an identity keeps resolving to the same user after any further run, whatever
      address it reports; it is refused only while that account is suspended. */
  lemma LinkedIdentityResolves(s: State, ops: seq<Op>, identity: Identity, now: Time, newId: UserId)
    requires Inv(s) && ValidRun(s, ops) && identity.key in s.links
    ensures var s', u := Run(s, ops), s.links[identity.key];
      && u in s'.users
      && ResolveSocialUser(s', identity, now, newId).1 == (if s'.users[u].isActive then LoggedIn(u) else Failed(Suspended))
  {
    RunKeeps(s, ops);
    assert Verified(s, s.links[identity.key]);
  }

  /** A first social sign-in links the identity to the account it logs into. */
  lemma SocialLoginLinks(s: State, identity: Identity, now: Time, newId: UserId)
    requires Inv(s) && newId !in s.ids && ResolveSocialUser(s, identity, now, newId).1.LoggedIn?
    ensures var (s', r) := ResolveSocialUser(s, identity, now, newId);
      identity.key in s'.links && s'.links[identity.key] == r.user && Verified(s', r.user)
  {
    ResolveKeepsInv(s, identity, now, newId);
  }

  /** A social sign-in logs into an account only if the identity was linked to it before, or the
      account is new, or it was an unverified account with the address the provider vouches for;
      a verified account is never entered through an unlinked identity. */
  lemma SocialLoginOnlyInto(s: State, identity: Identity, now: Time, newId: UserId)
    requires Inv(s) && newId !in s.ids && ResolveSocialUser(s, identity, now, newId).1.LoggedIn?
    ensures var u := ResolveSocialUser(s, identity, now, newId).1.user;
      || (identity.key in s.links && s.links[identity.key] == u)
      || u == newId
      || (u in s.users && !s.users[u].isVerified && s.users[u].email == identity.email)
    ensures var u := ResolveSocialUser(s, identity, now, newId).1.user; u in s.users ==> s.users[u].isActive
  {
    if identity.key in s.links {
      assert Verified(s, s.links[identity.key]);
    }
  }

  /** A refused sign-in or link changes nothing. */
  lemma SocialRefusalsChangeNothing(s: State, identity: Identity, user: UserId, now: Time, newId: UserId)
    ensures ResolveSocialUser(s, identity, now, newId).1.Failed? ==> ResolveSocialUser(s, identity, now, newId).0 == s
    ensures LinkSocialIdentity(s, user, identity, now).1.Failed? ==> LinkSocialIdentity(s, user, identity, now).0 == s
  {
  }

  /** Linking goes through if and only if the account is there and active and neither side is
      linked elsewhere; afterwards the identity belongs to the account. */
  lemma LinkIff(s: State, user: UserId, identity: Identity, now: Time)
    requires Inv(s)
    ensures var (s', r) := LinkSocialIdentity(s, user, identity, now);
      && (r == Done <==>
            && user in s.users && s.users[user].isActive
            && (forall k :: k in s.links && s.links[k] == user && k.provider == identity.key.provider ==> k == identity.key)
            && (identity.key in s.links ==> s.links[identity.key] == user))
      && (r == Done ==> identity.key in s'.links && s'.links[identity.key] == user)
  {
    if identity.key in s.links {
      assert Verified(s, s.links[identity.key]);
    }
    var existing := LinkOf(s, user, identity.key.provider);
    if existing.Some? {
      var k := Key(identity.key.provider, existing.value);
      assert k == identity.key <==> existing.value == identity.key.id;
    }
  }

  /** A password lets in if and only if it is the stored one and the account is active and verified. */
  lemma LoginIff(s: State, email: string, password: string, u: UserId)
    requires Inv(s)
    ensures Login(s, email, password).1 == LoggedIn(u) <==>
      && u in s.users && s.users[u].email == email
      && s.users[u].isActive && s.users[u].isVerified && s.users[u].password == Some(password)
    ensures Login(s, email, password).1.Failed? ==> Login(s, email, password).0 == s
  {
  }

  // ---- between a sign-in and its tokens ----

  /** A sign-in commits before its tokens or its ticket are made. Whatever transactions run in
      between, cleanups included, the account is still there and verified, the foreign key accepts
      the token and the ticket, and the invariant holds before and after. */
  lemma TokensFollowSignIn(s: State, ops: seq<Op>, u: UserId, ticket: string, now: Time)
    requires Inv(s) && u in s.granted && ValidRun(s, ops)
    ensures var s' := Run(s, ops);
      && Inv(s') && u in s'.granted && Verified(s', u)
      && Inv(IssueTokens(s', u)) && u in IssueTokens(s', u).sessions
      && Inv(CreateTicket(s', u, ticket, now)) && ticket in CreateTicket(s', u, ticket, now).tickets
      && CreateTicket(s', u, ticket, now).tickets[ticket].userId == u
  {
    RunKeeps(s, ops);
    IssueKeepsInv(Run(s, ops), u);
    TicketKeepsInv(Run(s, ops), u, ticket, now);
  }

  // ---- which password opens an account ----

  /** A social sign-in leaves the password alone, also when it is what verifies the account: the
      account can then be entered with a password if and only if that one was stored before, so
      a password chosen by whoever registered the address, verified or not, goes on working. */
  lemma PasswordAfterSocialSignIn(s: State, identity: Identity, now: Time, newId: UserId, password: string)
    requires Inv(s) && newId !in s.ids && SocialSignIn(s, identity, now, newId).1.LoggedIn?
    ensures var (s', r) := SocialSignIn(s, identity, now, newId);
      && r.user in s'.users
      && (Login(s', s'.users[r.user].email, password).1 == LoggedIn(r.user) <==>
            r.user in s.users && s.users[r.user].password == Some(password))
  {
    var (s', r) := SocialSignIn(s, identity, now, newId);
    SocialKeepsInv(s, identity, now, newId);
    ResolveKeepsPassword(s, identity, now, newId);
    LoginIff(s', s'.users[r.user].email, password, r.user);
  }

  lemma ResolveKeepsPassword(s: State, identity: Identity, now: Time, newId: UserId)
    requires Inv(s) && newId !in s.ids && ResolveSocialUser(s, identity, now, newId).1.LoggedIn?
    ensures var (s', r) := ResolveSocialUser(s, identity, now, newId);
      && Verified(s', r.user) && s'.users[r.user].isActive
      && s'.users[r.user].password == if r.user in s.users then s.users[r.user].password else None
  {
    ResolveKeepsInv(s, identity, now, newId);
    if identity.key in s.links {
      assert Verified(s, s.links[identity.key]);
    }
  }

  /** It happens: an address is registered with a password, its owner signs in with a provider
      without ever entering the code, and the password of the registration works. */
  lemma RegisteredPasswordWorks(email: string, password: string, key: Key, now: Time)
    ensures var ops := [RegisterOp(email, password, now, 0), SocialOp(Identity(key, email), now, 1)];
      && ValidRun(Empty, ops)
      && Login(Run(Empty, ops), email, password).1 == LoggedIn(0)
  {
    var s1 := Register(Empty, email, password, now, 0).0;
    RegisterKeepsInv(Empty, email, password, now, 0);
    var s2 := SocialSignIn(s1, Identity(key, email), now, 1).0;
    assert s1 == AddUser(Empty, 0, User(email, true, false, Some(password), now));
    assert s2.users[0] == User(email, true, true, Some(password), now);
    SocialKeepsInv(s1, Identity(key, email), now, 1);
    LoginIff(s2, email, password, 0);
    var second := SocialOp(Identity(key, email), now, 1);
    assert [RegisterOp(email, password, now, 0), second][1..] == [second] && [second][1..] == [];
    assert ValidRun(s2, []) && Run(s2, []) == s2;
    assert ValidRun(s1, [second]) && Run(s1, [second]) == s2;
  }

  /** This step is one that may give the account another password. */
  ghost predicate ChangesPassword(s: State, op: Op, u: UserId) {
    match op
    case ResetPasswordOp(email, _, _, _) => ByEmail(s, email) == Some(u)
    case ChangePasswordOp(user, _, _, _) => user == u
    case SetPasswordOp(user, _, _) => user == u
    case _ => false
  }

  ghost predicate PasswordLeftAlone(s: State, ops: seq<Op>, u: UserId)
    decreases |ops|
  {
    ops == [] || (!ChangesPassword(s, ops[0], u) && PasswordLeftAlone(Step(s, ops[0]), ops[1..], u))
  }

  ghost predicate SamePasswordOf(s: State, s': State, u: UserId) {
    u in s.users && u in s'.users && s'.users[u].password == s.users[u].password
  }

  lemma ResolveSamePassword(s: State, identity: Identity, now: Time, newId: UserId, u: UserId)
    requires Inv(s) && newId !in s.ids && u in s.users
    ensures SamePasswordOf(s, SocialSignIn(s, identity, now, newId).0, u)
  {
  }

  lemma LinkSamePassword(s: State, user: UserId, identity: Identity, now: Time, u: UserId)
    requires u in s.users
    ensures SamePasswordOf(s, LinkSocialIdentity(s, user, identity, now).0, u)
  {
  }

  lemma VerifySamePassword(s: State, email: string, codeAccepted: bool, legacy: Option<string>, now: Time, newId: UserId, u: UserId)
    requires Inv(s) && newId !in s.ids && u in s.users
    ensures SamePasswordOf(s, VerifyEmail(s, email, codeAccepted, legacy, now, newId).0, u)
  {
  }

  lemma StepSamePassword(s: State, op: Op, u: UserId)
    requires Inv(s) && Possible(s, op) && Verified(s, u) && !ChangesPassword(s, op, u)
    ensures SamePasswordOf(s, Step(s, op), u)
  {
    match op
    case VerifyOp(email, codeAccepted, legacy, now, newId) => VerifySamePassword(s, email, codeAccepted, legacy, now, newId, u);
    case SocialOp(identity, now, newId) => ResolveSamePassword(s, identity, now, newId, u);
    case LinkOp(user, identity, now) => LinkSamePassword(s, user, identity, now, u);
    case _ =>
  }

  /** The password of a verified account changes by its own reset, change or set only: no
      registration, sign-in, link or address change replaces it. */
  lemma {:induction false} RunKeepsPassword(s: State, ops: seq<Op>, u: UserId)
    requires Inv(s) && ValidRun(s, ops) && Verified(s, u) && PasswordLeftAlone(s, ops, u)
    ensures SamePasswordOf(s, Run(s, ops), u)
    decreases |ops|
  {
    if ops != [] {
      StepKeepsInv(s, ops[0]);
      StepSamePassword(s, ops[0], u);
      RunKeepsPassword(Step(s, ops[0]), ops[1..], u);
    }
  }

  /** After a password reset, change or set, and any further run without another, the account is
      entered with the new password and no other. */
  lemma OnlyLatestPassword(s: State, op: Op, ops: seq<Op>, u: UserId, password: string)
    requires Inv(s) && Verified(s, u) && ChangesPassword(s, op, u)
    requires match op
      case ResetPasswordOp(email, accepted, next, now) => ResetPassword(s, email, accepted, next, now).1 == Done
      case ChangePasswordOp(user, current, next, now) => ChangePassword(s, user, current, next, now).1 == Done
      case SetPasswordOp(user, next, now) => SetPassword(s, user, next, now).1 == Done
      case _ => false
    requires ValidRun(Step(s, op), ops) && PasswordLeftAlone(Step(s, op), ops, u)
    ensures var s' := Run(Step(s, op), ops);
      && u in s'.users
      && (Login(s', s'.users[u].email, password).1 == LoggedIn(u) <==> password == op.password && s'.users[u].isActive)
  {
    StepKeepsInv(s, op);
    RunKeepsPassword(Step(s, op), ops, u);
    RunKeeps(Step(s, op), ops);
    var s' := Run(Step(s, op), ops);
    LoginIff(s', s'.users[u].email, password, u);
  }

  // ---- tickets are used once ----

  ghost predicate NeverIssues(ops: seq<Op>, ticket: string) {
    forall i :: 0 <= i < |ops| && ops[i].CreateTicketOp? ==> ops[i].ticket != ticket
  }

  lemma StepKeepsTicketGone(s: State, op: Op, ticket: string)
    requires Possible(s, op) && ticket !in s.tickets && (op.CreateTicketOp? ==> op.ticket != ticket)
    ensures ticket !in Step(s, op).tickets
  {
  }

  lemma {:induction false} RunKeepsTicketGone(s: State, ops: seq<Op>, ticket: string)
    requires ValidRun(s, ops) && NeverIssues(ops, ticket) && ticket !in s.tickets
    ensures ticket !in Run(s, ops).tickets
    decreases |ops|
  {
    if ops != [] {
      StepKeepsTicketGone(s, ops[0], ticket);
      RunKeepsTicketGone(Step(s, ops[0]), ops[1..], ticket);
    }
  }

  /** A ticket lets its own user in, within its lifetime, and only once: presented again after any
      further run it is unknown. */
  lemma TicketUsedOnce(s: State, ticket: string, now: Time, ops: seq<Op>, later: Time)
    requires Inv(s) && ExchangeTicket(s, ticket, now).1.LoggedIn?
    requires ValidRun(ExchangeTicket(s, ticket, now).0, ops) && NeverIssues(ops, ticket)
    ensures ticket in s.tickets && ExchangeTicket(s, ticket, now).1.user == s.tickets[ticket].userId
    ensures now <= s.tickets[ticket].expiresAt
    ensures ExchangeTicket(Run(ExchangeTicket(s, ticket, now).0, ops), ticket, later).1 == Failed(TicketInvalid)
  {
    RunKeepsTicketGone(ExchangeTicket(s, ticket, now).0, ops, ticket);
  }
}
