// What each transaction on the account tables answers and changes, over the rows of the tables.
module AccountEffects {
  import opened Common
  import opened Accounts

  predicate Holds(s: State, u: UserId, email: string) {
    u in s.users && s.users[u].email == email
  }

  ghost predicate Free(s: State, email: string) {
    forall u :: u in s.users ==> s.users[u].email != email
  }

  lemma HolderFound(s: State, u: UserId, email: string)
    requires Inv(s) && Holds(s, u, email)
    ensures ByEmail(s, email) == Some(u)
  {
  }

  lemma FreeIsNone(s: State, email: string)
    ensures Free(s, email) <==> ByEmail(s, email).None?
  {
  }

  /** The users table differs in one row only. */
  ghost predicate OneRow(s: State, s': State, u: UserId, row: User) {
    && s'.users.Keys == s.users.Keys + {u}
    && s'.users[u] == row
    && forall v :: v in s.users && v != u ==> s'.users[v] == s.users[v]
  }

  ghost predicate SameButUsers(s: State, s': State) {
    s'.links == s.links && s'.tickets == s.tickets && s'.granted == s.granted && s'.sessions == s.sessions
  }

  // ---- registration and verification ----

  /** Registering stores the password with a new, or over a pending, unverified account; it is
      refused for a suspended or a verified one. */
  lemma RegisterIff(s: State, email: string, password: string, now: Time, newId: UserId)
    requires Inv(s) && newId !in s.ids
    ensures var (s', r) := Register(s, email, password, now, newId);
      && (Free(s, email) ==>
            r == Done && OneRow(s, s', newId, User(email, true, false, Some(password), now)) && SameButUsers(s, s'))
      && (forall u :: Holds(s, u, email) ==>
            if !s.users[u].isActive then r == Failed(Suspended) && s' == s
            else if s.users[u].isVerified then r == Failed(AlreadyRegistered) && s' == s
            else
              && r == Done && SameButUsers(s, s')
              && OneRow(s, s', u, User(email, true, false, Some(password), now)))
  {
    FreeIsNone(s, email);
    forall u: UserId | Holds(s, u, email) ensures ByEmail(s, email) == Some(u) {
      HolderFound(s, u, email);
    }
  }

  /** Who is let in by a verification: with an accepted code and nobody else. */
  ghost predicate Verifiable(s: State, email: string, legacy: Option<string>, newId: UserId, u: UserId) {
    || (Holds(s, u, email) && s.users[u].isActive && !s.users[u].isVerified)
    || (Free(s, email) && legacy.Some? && u == newId)
  }

  /** A verification lets u in if and only if the code was accepted and u is the active, unverified
      account with that address, or the new account of a legacy registration with a password. Then
      u is verified and no other account changes; any other answer leaves the state as it was. */
  lemma VerifyEmailIff(s: State, email: string, codeAccepted: bool, legacy: Option<string>, now: Time, newId: UserId, u: UserId)
    requires Inv(s) && newId !in s.ids
    ensures var (s', r) := VerifyEmail(s, email, codeAccepted, legacy, now, newId);
      && (r == LoggedIn(u) <==> codeAccepted && Verifiable(s, email, legacy, newId, u))
      && (r == LoggedIn(u) ==>
            && OneRow(s, s', u, if u in s.users then s.users[u].(isVerified := true, updatedAt := now)
                                else User(email, true, true, legacy, now))
            && s'.granted == s.granted + {u}
            && s'.links == s.links && s'.tickets == s.tickets && s'.sessions == s.sessions)
      && (!r.LoggedIn? ==> s' == s)
  {
    FreeIsNone(s, email);
    if Holds(s, u, email) {
      HolderFound(s, u, email);
    }
  }

  /** Why a verification is refused, in the order of the checks. */
  lemma VerifyEmailRefusals(s: State, email: string, codeAccepted: bool, legacy: Option<string>, now: Time, newId: UserId)
    requires Inv(s)
    ensures var r := VerifyEmail(s, email, codeAccepted, legacy, now, newId).1;
      && (forall u :: Holds(s, u, email) ==>
            && (r == Failed(Suspended) <==> !s.users[u].isActive)
            && (r == Failed(AlreadyVerified) <==> s.users[u].isActive && s.users[u].isVerified)
            && (r == Failed(BadCode) <==> s.users[u].isActive && !s.users[u].isVerified && !codeAccepted))
      && (Free(s, email) ==>
            && (r == Failed(BadCode) <==> !codeAccepted)
            && (r == Failed(NoPassword) <==> codeAccepted && legacy.None?))
  {
    FreeIsNone(s, email);
    forall u: UserId | Holds(s, u, email) ensures ByEmail(s, email) == Some(u) {
      HolderFound(s, u, email);
    }
  }

  // ---- sign-ins ----

  /** Why a password sign-in is refused, in the order of the checks. */
  lemma LoginRefusals(s: State, email: string, password: string)
    requires Inv(s)
    ensures var (s', r) := Login(s, email, password);
      && (Free(s, email) ==> r == Failed(BadCredentials))
      && (forall u :: Holds(s, u, email) ==>
            && (r == Failed(Suspended) <==> !s.users[u].isActive)
            && (r == Failed(BadCredentials) <==> s.users[u].isActive && s.users[u].password != Some(password))
            && (r == Failed(NotVerified) <==>
                  s.users[u].isActive && s.users[u].password == Some(password) && !s.users[u].isVerified))
      && (r.LoggedIn? ==> s' == s.(granted := s.granted + {r.user}))
  {
    FreeIsNone(s, email);
    forall u: UserId | Holds(s, u, email) ensures ByEmail(s, email) == Some(u) {
      HolderFound(s, u, email);
    }
  }

  ghost predicate HasProvider(s: State, u: UserId, provider: string) {
    exists k :: k in s.links && s.links[k] == u && k.provider == provider
  }

  lemma ProviderFound(s: State, u: UserId, provider: string)
    ensures LinkOf(s, u, provider).Some? <==> HasProvider(s, u, provider)
  {
  }

  /** A linked identity enters its account whatever address it reports, and changes nothing but
      letting it in; it is refused if and only if the account is suspended. */
  lemma LinkedSignIn(s: State, identity: Identity, now: Time, newId: UserId)
    requires Inv(s) && identity.key in s.links
    ensures s.links[identity.key] in s.users
    ensures var (s', r) := SocialSignIn(s, identity, now, newId);
      var u := s.links[identity.key];
      if s.users[u].isActive then r == LoggedIn(u) && s' == s.(granted := s.granted + {u})
      else r == Failed(Suspended) && s' == s
  {
    assert Verified(s, s.links[identity.key]);
  }

  /** Without the invariant too, signing in with or linking again an identity that is already the
      account's verifies it if the provider reports its own address. */
  lemma UsingALinkVerifies(s: State, u: UserId, identity: Identity, now: Time, newId: UserId)
    requires u in s.users && s.users[u].isActive
    requires identity.key in s.links && s.links[identity.key] == u
    requires LinkOf(s, u, identity.key.provider) == Some(identity.key.id)
    ensures var row := if !s.users[u].isVerified && s.users[u].email == identity.email
                       then s.users[u].(isVerified := true, updatedAt := now) else s.users[u];
      && SocialSignIn(s, identity, now, newId).1 == LoggedIn(u)
      && OneRow(s, SocialSignIn(s, identity, now, newId).0, u, row)
      && LinkSocialIdentity(s, u, identity, now).1 == Done
      && OneRow(s, LinkSocialIdentity(s, u, identity, now).0, u, row)
  {
  }

  /** An identity nobody has linked and whose address nobody has makes a new, verified account
      without a password, linked to it. */
  lemma NewSocialUser(s: State, identity: Identity, now: Time, newId: UserId)
    requires Inv(s) && newId !in s.ids && identity.key !in s.links && Free(s, identity.email)
    ensures var (s', r) := SocialSignIn(s, identity, now, newId);
      && r == LoggedIn(newId)
      && OneRow(s, s', newId, User(identity.email, true, true, None, now))
      && s'.links == s.links[identity.key := newId] && s'.granted == s.granted + {newId}
      && s'.tickets == s.tickets && s'.sessions == s.sessions
  {
    FreeIsNone(s, identity.email);
  }

  /** An unlinked identity whose address an account holds: it enters and links an active unverified
      account, verifying it, and is refused by every other. */
  lemma SocialSignInByAddress(s: State, identity: Identity, now: Time, newId: UserId, u: UserId)
    requires Inv(s) && newId !in s.ids && identity.key !in s.links && Holds(s, u, identity.email)
    ensures var (s', r) := SocialSignIn(s, identity, now, newId);
      if !s.users[u].isActive then r == Failed(Suspended) && s' == s
      else if HasProvider(s, u, identity.key.provider) then r == Failed(LinkedToAnotherAccount) && s' == s
      else if s.users[u].isVerified then r == Failed(AccountExists) && s' == s
      else
        && r == LoggedIn(u)
        && OneRow(s, s', u, s.users[u].(isVerified := true, updatedAt := now))
        && s'.links == s.links[identity.key := u] && s'.granted == s.granted + {u}
        && s'.tickets == s.tickets && s'.sessions == s.sessions
  {
    HolderFound(s, u, identity.email);
    ProviderFound(s, u, identity.key.provider);
  }

  /** Linking adds the link, and verifies an account whose own address the provider reports; why it
      is refused. */
  lemma LinkEffect(s: State, u: UserId, identity: Identity, now: Time)
    requires Inv(s)
    ensures var (s', r) := LinkSocialIdentity(s, u, identity, now);
      && (r == Failed(NoSuchUser) <==> u !in s.users)
      && (r == Failed(Suspended) <==> u in s.users && !s.users[u].isActive)
      && (r == Failed(LinkedToAnotherAccount) <==>
            && u in s.users && s.users[u].isActive && HasProvider(s, u, identity.key.provider)
            && !(identity.key in s.links && s.links[identity.key] == u))
      && (r == Failed(LinkedToAnotherUser) <==>
            && u in s.users && s.users[u].isActive && !HasProvider(s, u, identity.key.provider)
            && identity.key in s.links && s.links[identity.key] != u)
      && (r == Done ==>
            && u in s.users
            && s'.links == s.links[identity.key := u]
            && OneRow(s, s', u, if !s.users[u].isVerified && s.users[u].email == identity.email
                                then s.users[u].(isVerified := true, updatedAt := now) else s.users[u])
            && s'.tickets == s.tickets && s'.granted == s.granted && s'.sessions == s.sessions)
  {
    LinkIff(s, u, identity, now);
    ProviderFound(s, u, identity.key.provider);
    if identity.key in s.links {
      assert Verified(s, s.links[identity.key]);
    }
  }

  // ---- tickets and tokens ----

  /** A ticket is for its user, for five minutes; it lets the user in if it is unexpired and the user
      active, and is used up then or when it has expired. */
  lemma TicketEffect(s: State, u: UserId, ticket: string, now: Time)
    requires u in s.users
    ensures CreateTicket(s, u, ticket, now) == s.(tickets := s.tickets[ticket := Ticket(u, now + 5 * MINUTE)])
  {
  }

  lemma ExchangeIff(s: State, ticket: string, now: Time)
    requires Inv(s)
    ensures var (s', r) := ExchangeTicket(s, ticket, now);
      && (r == Failed(TicketInvalid) <==> ticket !in s.tickets)
      && (r == Failed(TicketExpired) <==> ticket in s.tickets && s.tickets[ticket].expiresAt < now)
      && (ticket in s.tickets ==> s.tickets[ticket].userId in s.users)
      && (r.LoggedIn? <==>
            && ticket in s.tickets && now <= s.tickets[ticket].expiresAt && s.users[s.tickets[ticket].userId].isActive)
      && (r.LoggedIn? ==>
            && r.user == s.tickets[ticket].userId
            && s' == s.(tickets := s.tickets - {ticket}, granted := s.granted + {r.user}))
      && (r == Failed(TicketExpired) ==> s' == s.(tickets := s.tickets - {ticket}))
      && (r.Failed? && r.error != TicketExpired ==> s' == s)
      && (r == Failed(NoSuchUser) <==>
            && ticket in s.tickets && now <= s.tickets[ticket].expiresAt && !s.users[s.tickets[ticket].userId].isActive)
  {
    if ticket in s.tickets {
      assert Verified(s, s.tickets[ticket].userId);
    }
  }

  /** Tokens are recorded for the user they are made for, and for nobody else. */
  lemma IssueEffect(s: State, u: UserId, v: UserId)
    requires u in s.users
    ensures v in IssueTokens(s, u).sessions <==> v in s.sessions || v == u
    ensures IssueTokens(s, u).(sessions := s.sessions) == s
  {
  }

  // ---- addresses and passwords ----

  /** An address change goes through if and only if the code was accepted, the account exists and no
      other has the address; the account then has it, verified, and nothing else changes. */
  lemma ChangeEmailIff(s: State, u: UserId, email: string, codeAccepted: bool, now: Time)
    requires Inv(s)
    ensures var (s', r) := ChangeEmail(s, u, email, codeAccepted, now);
      && (r == Done <==> codeAccepted && u in s.users && forall v :: Holds(s, v, email) ==> v == u)
      && (r == Done ==>
            && u in s.users && SameButUsers(s, s')
            && OneRow(s, s', u, s.users[u].(email := email, isVerified := true, updatedAt := now)))
      && (r != Done ==> s' == s)
      && (r == Failed(BadCode) <==> !codeAccepted)
      && (r == Failed(AlreadyRegistered) <==> codeAccepted && exists v :: Holds(s, v, email) && v != u)
  {
    var taken := exists v :: v in s.users && s.users[v].email == email && v != u;
    if taken {
      var v :| v in s.users && s.users[v].email == email && v != u;
      assert Holds(s, v, email);
    }
    assert taken <==> exists v :: Holds(s, v, email) && v != u;
  }

  /** A reset goes through if and only if the code was accepted, an active and verified account has
      the address, and the password is another one; only the password then changes. */
  lemma ResetPasswordIff(s: State, email: string, codeAccepted: bool, password: string, now: Time)
    requires Inv(s)
    ensures var (s', r) := ResetPassword(s, email, codeAccepted, password, now);
      && (r == Failed(BadCode) <==> !codeAccepted)
      && (codeAccepted && Free(s, email) ==> r == Failed(NoSuchUser))
      && (forall u :: codeAccepted && Holds(s, u, email) ==>
            && (r == Failed(Suspended) <==> !s.users[u].isActive)
            && (r == Failed(NotVerified) <==> s.users[u].isActive && !s.users[u].isVerified)
            && (r == Failed(SamePassword) <==>
                  s.users[u].isActive && s.users[u].isVerified && s.users[u].password == Some(password))
            && (r == Done <==> s.users[u].isActive && s.users[u].isVerified && s.users[u].password != Some(password))
            && (r == Done ==> Repassworded(s, s', u, password, now)))
      && (r != Done ==> s' == s)
  {
    FreeIsNone(s, email);
    forall u: UserId | Holds(s, u, email) ensures ByEmail(s, email) == Some(u) {
      HolderFound(s, u, email);
    }
  }

  ghost predicate Repassworded(s: State, s': State, u: UserId, password: string, now: Time)
    requires u in s.users
  {
    OneRow(s, s', u, s.users[u].(password := Some(password), updatedAt := now)) && SameButUsers(s, s')
  }

  /** A change goes through if and only if the account is active and has the current password, and the
      new one is another. */
  lemma ChangePasswordIff(s: State, u: UserId, current: string, password: string, now: Time)
    ensures var (s', r) := ChangePassword(s, u, current, password, now);
      && (r == Done <==> u in s.users && s.users[u].isActive && s.users[u].password == Some(current) && current != password)
      && (r == Done ==> u in s.users && Repassworded(s, s', u, password, now))
      && (r != Done ==> s' == s)
      && (r == Failed(NoSuchUser) <==> u !in s.users)
      && (r == Failed(Suspended) <==> u in s.users && !s.users[u].isActive)
      && (r == Failed(NoPassword) <==> u in s.users && s.users[u].isActive && s.users[u].password.None?)
      && (r == Failed(SamePassword) <==>
            u in s.users && s.users[u].isActive && s.users[u].password == Some(current) && current == password)
      && (r == Failed(WrongPassword) <==>
            u in s.users && s.users[u].isActive && s.users[u].password.Some? && s.users[u].password.value != current)
  {
  }

  /** A first password is set if and only if the account is active and has none. */
  lemma SetPasswordIff(s: State, u: UserId, password: string, now: Time)
    ensures var (s', r) := SetPassword(s, u, password, now);
      && (r == Done <==> u in s.users && s.users[u].isActive && s.users[u].password.None?)
      && (r == Done ==> u in s.users && Repassworded(s, s', u, password, now))
      && (r != Done ==> s' == s)
      && (r == Failed(NoSuchUser) <==> u !in s.users)
      && (r == Failed(Suspended) <==> u in s.users && !s.users[u].isActive)
      && (r == Failed(HasPassword) <==> u in s.users && s.users[u].isActive && s.users[u].password.Some?)
  {
  }

  /** Suspending and touching an account change that one field of that one row. */
  lemma RowEdits(s: State, u: UserId, active: bool, now: Time)
    requires u in s.users
    ensures OneRow(s, Suspend(s, u, active), u, s.users[u].(isActive := active)) && SameButUsers(s, Suspend(s, u, active))
    ensures OneRow(s, Touch(s, u, now), u, s.users[u].(updatedAt := now)) && SameButUsers(s, Touch(s, u, now))
  {
  }

  // ---- maintenance ----

  /** The cleanup deletes exactly the accounts left unverified for seven days, the links and tickets
      of those, and the expired tickets. What is kept is unchanged. */
  lemma CleanupEffect(s: State, now: Time)
    requires Inv(s)
    ensures var s' := Cleanup(s, now);
      && (forall u :: u in s'.users <==> u in s.users && (s.users[u].isVerified || now - 7 * DAY < s.users[u].updatedAt))
      && (forall u :: u in s'.users ==> s'.users[u] == s.users[u])
      && s'.links == s.links
      && (forall t :: t in s'.tickets <==> t in s.tickets && now < s.tickets[t].expiresAt)
      && (forall t :: t in s'.tickets ==> s'.tickets[t] == s.tickets[t])
      && s'.granted == s.granted && s'.sessions == s.sessions
  {
    forall k | k in s.links ensures s.links[k] in Cleanup(s, now).users {
      assert Verified(s, s.links[k]);
    }
    forall t | t in s.tickets ensures s.tickets[t].userId in Cleanup(s, now).users {
      assert Verified(s, s.tickets[t].userId);
    }
    forall u | u in s.granted || u in s.sessions ensures u in Cleanup(s, now).users {
      assert Verified(s, u);
    }
  }
}
