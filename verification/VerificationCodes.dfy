// src/auth/service.rs and src/user/service.rs: one-time verification codes with an attempt limit.
module VerificationCodes {
  import opened Common
  import opened Hashing

  type RecordId = nat
  type UserId = nat

  const MAX_ATTEMPTS: nat := 5
  const EXPIRY: int := 15 * MINUTE

  datatype Record = Record(
    email: string,
    purpose: string,
    userId: Option<UserId>,
    codeHash: string,
    expiresAt: Time,
    attempts: nat
  )

  type Records = map<RecordId, Record>

  /** What happened to a record, kept after its row is gone. */
  datatype Trace = Trace(code: string, wrongGuesses: nat, uses: nat)

  datatype State = State(records: Records, traces: map<RecordId, Trace>)

  datatype Error = NoPending | CodeExpired | TooManyAttempts | WrongCode

  datatype Result = Accepted(id: RecordId) | Refused(error: Error)

  // ---- issuing a code ----

  predicate Superseded(r: Record, email: string, purpose: string, user: Option<UserId>) {
    r.purpose == purpose && (r.email == email || (user.Some? && r.userId == user))
  }

  function Remove(records: Records, gone: set<RecordId>): Records {
    records - gone
  }

  function Supersede(records: Records, email: string, purpose: string, user: Option<UserId>): Records {
    map id | id in records && !Superseded(records[id], email, purpose, user) :: records[id]
  }

  function Issue(secret: Secret, s: State, id: RecordId, email: string, purpose: string, user: Option<UserId>,
                 code: string, now: Time): State {
    var r := Record(email, purpose, user, HashVerificationCode(secret, purpose, email, code), now + EXPIRY, 0);
    State(Supersede(s.records, email, purpose, user)[id := r], s.traces[id := Trace(code, 0, 0)])
  }

  // ---- checking a guess ----

  predicate Matches(r: Record, email: string, purpose: string, user: Option<UserId>) {
    r.email == email && r.purpose == purpose && r.userId == user
  }

  ghost function FindPending(records: Records, email: string, purpose: string, user: Option<UserId>): (r: Option<RecordId>)
    ensures r.Some? ==> r.value in records && Matches(records[r.value], email, purpose, user)
    ensures r.None? ==> forall id :: id in records ==> !Matches(records[id], email, purpose, user)
  {
    if exists id :: id in records && Matches(records[id], email, purpose, user)
    then var id :| id in records && Matches(records[id], email, purpose, user); Some(id)
    else None
  }

  function CountWrong(traces: map<RecordId, Trace>, id: RecordId): map<RecordId, Trace> {
    if id in traces then traces[id := traces[id].(wrongGuesses := traces[id].wrongGuesses + 1)] else traces
  }

  function CheckFound(secret: Secret, s: State, id: RecordId, code: string, now: Time): (State, Result)
    requires id in s.records
  {
    var r := s.records[id];
    if now > r.expiresAt then (s.(records := Remove(s.records, {id})), Refused(CodeExpired))
    else if r.attempts >= MAX_ATTEMPTS then (s.(records := Remove(s.records, {id})), Refused(TooManyAttempts))
    else if HashVerificationCode(secret, r.purpose, r.email, code) != r.codeHash then
      var traces := CountWrong(s.traces, id);
      if r.attempts + 1 >= MAX_ATTEMPTS then (State(Remove(s.records, {id}), traces), Refused(TooManyAttempts))
      else (State(s.records[id := r.(attempts := r.attempts + 1)], traces), Refused(WrongCode))
    else (s, Accepted(id))
  }

  /** Load and validate. What it changes is committed even when it refuses. */
  ghost function Check(secret: Secret, s: State, email: string, purpose: string, user: Option<UserId>,
                       code: string, now: Time): (State, Result) {
    var found := FindPending(s.records, email, purpose, user);
    if found.None? then (s, Refused(NoPending)) else CheckFound(secret, s, found.value, code, now)
  }

  /** What the caller makes of an accepted code, in the same transaction: it takes effect and the
      record goes; the effect is refused and the record goes all the same (an address change to an
      address taken meanwhile); or the effect is refused and the record stays (a suspended account,
      an old password, a missing account). */
  datatype Follow = Effect | Discard | Keep

  function Use(traces: map<RecordId, Trace>, id: RecordId): map<RecordId, Trace> {
    if id in traces then traces[id := traces[id].(uses := traces[id].uses + 1)] else traces
  }

  function Settle(s: State, id: RecordId, follow: Follow): State {
    match follow
    case Effect => State(Remove(s.records, {id}), Use(s.traces, id))
    case Discard => s.(records := Remove(s.records, {id}))
    case Keep => s
  }

  ghost function Redeem(secret: Secret, s: State, email: string, purpose: string, user: Option<UserId>,
                        code: string, now: Time, follow: Follow): (State, Result) {
    var (s', r) := Check(secret, s, email, purpose, user, code, now);
    (if r.Accepted? then Settle(s', r.id, follow) else s', r)
  }

  function Clear(s: State, email: string, purpose: string, user: Option<UserId>): State {
    s.(records := map id | id in s.records
                           && !(s.records[id].purpose == purpose && s.records[id].email == email
                                && (user.None? || s.records[id].userId == user)) :: s.records[id])
  }

  function PurgeExpired(s: State, now: Time): State {
    s.(records := map id | id in s.records && s.records[id].expiresAt > now :: s.records[id])
  }

  function DropUser(s: State, user: UserId): State {
    s.(records := map id | id in s.records && s.records[id].userId != Some(user) :: s.records[id])
  }

  // ---- runs ----

  datatype Op =
    | IssueOp(id: RecordId, email: string, purpose: string, user: Option<UserId>, code: string, now: Time)
    | RedeemOp(email: string, purpose: string, user: Option<UserId>, code: string, now: Time, follow: Follow)
    | ClearOp(email: string, purpose: string, user: Option<UserId>)
    | PurgeOp(now: Time)
    | DropUserOp(gone: UserId)     // deletion of an account cascades

  /** Record ids are never reused; purposes and normalised addresses hold no NUL. */
  ghost predicate Possible(s: State, op: Op) {
    op.IssueOp? ==> op.id !in s.traces && NulFree(op.email) && NulFree(op.purpose)
  }

  ghost function Step(secret: Secret, s: State, op: Op): State {
    match op
    case IssueOp(id, email, purpose, user, code, now) => Issue(secret, s, id, email, purpose, user, code, now)
    case RedeemOp(email, purpose, user, code, now, follow) =>
      Redeem(secret, s, email, purpose, user, code, now, follow).0
    case ClearOp(email, purpose, user) => Clear(s, email, purpose, user)
    case PurgeOp(now) => PurgeExpired(s, now)
    case DropUserOp(gone) => DropUser(s, gone)
  }

  ghost predicate ValidRun(secret: Secret, s: State, ops: seq<Op>)
    decreases |ops|
  {
    ops == [] || (Possible(s, ops[0]) && ValidRun(secret, Step(secret, s, ops[0]), ops[1..]))
  }

  ghost function Run(secret: Secret, s: State, ops: seq<Op>): State
    requires ValidRun(secret, s, ops)
    decreases |ops|
  {
    if ops == [] then s else Run(secret, Step(secret, s, ops[0]), ops[1..])
  }

  const Empty: State := State(map[], map[])

  // ---- the invariant ----

  ghost predicate TraceOk(t: Trace) {
    t.wrongGuesses <= MAX_ATTEMPTS && t.uses <= 1
  }

  /** A stored record counts exactly the wrong guesses so far, fewer than five, has not been used,
      and holds the hash of the code issued. */
  ghost predicate RecordOk(secret: Secret, s: State, id: RecordId)
    requires id in s.records
  {
    var r := s.records[id];
    && id in s.traces
    && r.attempts == s.traces[id].wrongGuesses < MAX_ATTEMPTS
    && s.traces[id].uses == 0
    && r.codeHash == HashVerificationCode(secret, r.purpose, r.email, s.traces[id].code)
    && NulFree(r.email) && NulFree(r.purpose)
  }

  ghost predicate OnePerEmailAndUser(records: Records) {
    forall a, b :: a in records && b in records && a != b && records[a].purpose == records[b].purpose ==>
      records[a].email != records[b].email && (records[a].userId.Some? ==> records[a].userId != records[b].userId)
  }

  ghost predicate Inv(secret: Secret, s: State) {
    && (forall id :: id in s.traces ==> TraceOk(s.traces[id]))
    && (forall id :: id in s.records ==> RecordOk(secret, s, id))
    && OnePerEmailAndUser(s.records)
  }

  lemma IssueKeepsInv(secret: Secret, s: State, id: RecordId, email: string, purpose: string, user: Option<UserId>,
                      code: string, now: Time)
    requires Inv(secret, s) && id !in s.traces && NulFree(email) && NulFree(purpose)
    ensures Inv(secret, Issue(secret, s, id, email, purpose, user, code, now))
  {
  }

  lemma CheckKeepsInv(secret: Secret, s: State, id: RecordId, code: string, now: Time)
    requires Inv(secret, s) && id in s.records
    ensures Inv(secret, CheckFound(secret, s, id, code, now).0)
  {
    var s' := CheckFound(secret, s, id, code, now).0;
    assert RecordOk(secret, s, id);
    forall x | x in s'.records ensures RecordOk(secret, s', x) {
      assert RecordOk(secret, s, x);
    }
  }

  lemma SettleKeepsInv(secret: Secret, s: State, id: RecordId, follow: Follow)
    requires Inv(secret, s) && id in s.records
    ensures Inv(secret, Settle(s, id, follow))
  {
    assert RecordOk(secret, s, id);
    var s' := Settle(s, id, follow);
    forall x | x in s'.records ensures RecordOk(secret, s', x) {
      assert RecordOk(secret, s, x);
    }
  }

  lemma FewerRecordsKeepInv(secret: Secret, s: State, records: Records)
    requires Inv(secret, s) && records.Keys <= s.records.Keys && forall id :: id in records ==> records[id] == s.records[id]
    ensures Inv(secret, s.(records := records))
  {
  }

  lemma RedeemKeepsInv(secret: Secret, s: State, email: string, purpose: string, user: Option<UserId>,
                       code: string, now: Time, follow: Follow)
    requires Inv(secret, s)
    ensures Inv(secret, Redeem(secret, s, email, purpose, user, code, now, follow).0)
  {
    var found := FindPending(s.records, email, purpose, user);
    if found.Some? {
      var (s', r) := CheckFound(secret, s, found.value, code, now);
      CheckKeepsInv(secret, s, found.value, code, now);
      if r.Accepted? {
        SettleKeepsInv(secret, s', found.value, follow);
      }
    }
  }

  /** A code that has taken effect, or been given up, is dead; one that was kept can be presented
      again. */
  lemma RedeemedOnce(secret: Secret, s: State, email: string, purpose: string, user: Option<UserId>, code: string,
                     now: Time, follow: Follow, ops: seq<Op>)
    requires Inv(secret, s) && Redeem(secret, s, email, purpose, user, code, now, follow).1.Accepted?
    requires ValidRun(secret, Redeem(secret, s, email, purpose, user, code, now, follow).0, ops)
    ensures var (s', r) := Redeem(secret, s, email, purpose, user, code, now, follow);
      && r.id in s.records && r.id in s.traces
      && (follow.Keep? ==> s' == s)
      && (!follow.Keep? ==> r.id !in Run(secret, s', ops).records)
      && (!follow.Keep? ==> r.id in s'.traces && r.id in Run(secret, s', ops).traces)
      && (!follow.Keep? ==> Run(secret, s', ops).traces[r.id].uses == if follow.Effect? then 1 else 0)
  {
    var (s', r) := Redeem(secret, s, email, purpose, user, code, now, follow);
    assert RecordOk(secret, s, r.id);
    if !follow.Keep? {
      GoneForEver(secret, s', ops, r.id);
    }
  }

  lemma StepKeepsInv(secret: Secret, s: State, op: Op)
    requires Inv(secret, s) && Possible(s, op)
    ensures Inv(secret, Step(secret, s, op))
  {
    match op
    case IssueOp(id, email, purpose, user, code, now) => IssueKeepsInv(secret, s, id, email, purpose, user, code, now);
    case RedeemOp(email, purpose, user, code, now, follow) =>
      RedeemKeepsInv(secret, s, email, purpose, user, code, now, follow);
    case ClearOp(email, purpose, user) => FewerRecordsKeepInv(secret, s, Clear(s, email, purpose, user).records);
    case PurgeOp(now) => FewerRecordsKeepInv(secret, s, PurgeExpired(s, now).records);
    case DropUserOp(gone) => FewerRecordsKeepInv(secret, s, DropUser(s, gone).records);
  }

  lemma {:induction false} RunKeepsInv(secret: Secret, s: State, ops: seq<Op>)
    requires Inv(secret, s) && ValidRun(secret, s, ops)
    ensures Inv(secret, Run(secret, s, ops))
    decreases |ops|
  {
    if ops != [] {
      StepKeepsInv(secret, s, ops[0]);
      RunKeepsInv(secret, Step(secret, s, ops[0]), ops[1..]);
    }
  }

  /** For every code ever issued, over any run: at most five wrong guesses are evaluated against
      it and it takes effect at most once; while stored, its attempt count is the number of wrong
      guesses so far, 0 to 4; and no address and no user has two records for one purpose. */
  lemma EveryCodeIsLimited(secret: Secret, ops: seq<Op>, id: RecordId)
    requires ValidRun(secret, Empty, ops) && id in Run(secret, Empty, ops).traces
    ensures var s := Run(secret, Empty, ops);
      && s.traces[id].wrongGuesses <= 5 && s.traces[id].uses <= 1
      && (id in s.records ==> s.records[id].attempts == s.traces[id].wrongGuesses <= 4 && s.traces[id].uses == 0)
      && OnePerEmailAndUser(s.records)
  {
    RunKeepsInv(secret, Empty, ops);
    var s := Run(secret, Empty, ops);
    assert TraceOk(s.traces[id]);
    if id in s.records {
      assert RecordOk(secret, s, id);
    }
  }

  /** A guess is accepted if and only if it is the very code issued, presented before it expires;
      a wrong guess counts, and the fifth removes the record. */
  lemma GuessOutcome(secret: Secret, s: State, id: RecordId, code: string, now: Time)
    requires Inv(secret, s) && id in s.records
    ensures id in s.traces
    ensures var (s', r) := CheckFound(secret, s, id, code, now);
      && (r == Accepted(id) <==> now <= s.records[id].expiresAt && code == s.traces[id].code)
      && (r.Accepted? ==> s' == s)
      && (now > s.records[id].expiresAt ==> r == Refused(CodeExpired) && s'.records == s.records - {id} && s'.traces == s.traces)
      && (now <= s.records[id].expiresAt && code != s.traces[id].code ==>
            && s'.traces[id].wrongGuesses == s.traces[id].wrongGuesses + 1
            && (if s.records[id].attempts == 4 then r == Refused(TooManyAttempts) && s'.records == s.records - {id}
                else r == Refused(WrongCode)
                     && s'.records == s.records[id := s.records[id].(attempts := s.records[id].attempts + 1)]))
  {
    assert RecordOk(secret, s, id);
    var r := s.records[id];
    CodeHashInjective(secret, r.purpose, r.email, code, s.traces[id].code);
  }

  /** Used or locked, a code is dead: once its record is gone no guess is ever checked against it. */
  ghost predicate Gone(s: State, id: RecordId) {
    id in s.traces && id !in s.records
  }

  lemma StepKeepsGone(secret: Secret, s: State, op: Op, id: RecordId)
    requires Possible(s, op) && Gone(s, id)
    ensures Gone(Step(secret, s, op), id) && Step(secret, s, op).traces[id] == s.traces[id]
  {
  }

  lemma {:induction false} GoneForEver(secret: Secret, s: State, ops: seq<Op>, id: RecordId)
    requires ValidRun(secret, s, ops) && Gone(s, id)
    ensures Gone(Run(secret, s, ops), id) && Run(secret, s, ops).traces[id] == s.traces[id]
    decreases |ops|
  {
    if ops != [] {
      StepKeepsGone(secret, s, ops[0], id);
      GoneForEver(secret, Step(secret, s, ops[0]), ops[1..], id);
    }
  }

  /** Only the latest code works: issuing a code finds it next, and every earlier code of the same
      purpose for the address or the user is dead in every continuation. */
  lemma LatestCodeOnly(secret: Secret, s: State, id: RecordId, email: string, purpose: string, user: Option<UserId>,
                       code: string, now: Time, earlier: RecordId, ops: seq<Op>)
    requires Inv(secret, s) && id !in s.traces && NulFree(email) && NulFree(purpose)
    requires earlier in s.records && s.records[earlier].purpose == purpose
    requires s.records[earlier].email == email || (user.Some? && s.records[earlier].userId == user)
    requires ValidRun(secret, Issue(secret, s, id, email, purpose, user, code, now), ops)
    ensures FindPending(Issue(secret, s, id, email, purpose, user, code, now).records, email, purpose, user) == Some(id)
    ensures earlier !in Run(secret, Issue(secret, s, id, email, purpose, user, code, now), ops).records
  {
    var s' := Issue(secret, s, id, email, purpose, user, code, now);
    assert RecordOk(secret, s, earlier);
    assert Matches(s'.records[id], email, purpose, user);
    assert Gone(s', earlier);
    GoneForEver(secret, s', ops, earlier);
  }

  // ---- what each operation does ----

  /** Issuing stores one fresh record, good for fifteen minutes and five attempts, in the place of
      those of the same purpose for the address or the user; every other record stays. */
  lemma IssueEffect(secret: Secret, s: State, id: RecordId, email: string, purpose: string, user: Option<UserId>,
                    code: string, now: Time)
    requires id !in s.records
    ensures var records := Issue(secret, s, id, email, purpose, user, code, now).records;
      && id in records
      && records[id] == Record(email, purpose, user, HashVerificationCode(secret, purpose, email, code), now + 15 * MINUTE, 0)
      && (forall x :: x in s.records ==>
            (x in records <==> s.records[x].purpose != purpose
                               || (s.records[x].email != email && (user.None? || s.records[x].userId != user))))
      && (forall x :: x in records && x != id ==> x in s.records && records[x] == s.records[x])
  {
  }

  /** A record that a guess for this purpose, address and user is checked against. */
  ghost predicate PendingFor(s: State, id: RecordId, email: string, purpose: string, user: Option<UserId>) {
    id in s.records && s.records[id].email == email && s.records[id].purpose == purpose && s.records[id].userId == user
  }

  /** A guess is accepted if and only if a record for exactly this purpose, address and user is
      stored, unexpired, and the code is the one issued with it; there is nothing to check against if
      and only if no such record is stored. Records for anything else are never touched. */
  lemma CheckIff(secret: Secret, s: State, email: string, purpose: string, user: Option<UserId>, code: string,
                 now: Time, id: RecordId)
    requires Inv(secret, s)
    ensures var (s', r) := Check(secret, s, email, purpose, user, code, now);
      && (PendingFor(s, id, email, purpose, user) ==> id in s.traces)
      && (r == Accepted(id) <==>
            PendingFor(s, id, email, purpose, user) && now <= s.records[id].expiresAt && code == s.traces[id].code)
      && (r == Refused(NoPending) <==> forall x :: !PendingFor(s, x, email, purpose, user))
      && (forall x :: x in s.records && !PendingFor(s, x, email, purpose, user) ==>
            x in s'.records && s'.records[x] == s.records[x])
      && s'.records.Keys <= s.records.Keys
  {
    var found := FindPending(s.records, email, purpose, user);
    if found.Some? {
      assert PendingFor(s, found.value, email, purpose, user);
      GuessOutcome(secret, s, found.value, code, now);
      forall x | PendingFor(s, x, email, purpose, user) ensures x == found.value { }
    }
    if PendingFor(s, id, email, purpose, user) {
      assert Matches(s.records[id], email, purpose, user);
    }
  }

  /** A redemption is accepted if and only if the guess is; and a refused one changes at most the
      record it was checked against. */
  lemma RedeemIff(secret: Secret, s: State, email: string, purpose: string, user: Option<UserId>, code: string,
                  now: Time, follow: Follow, id: RecordId)
    requires Inv(secret, s)
    ensures var (s', r) := Redeem(secret, s, email, purpose, user, code, now, follow);
      && (PendingFor(s, id, email, purpose, user) ==> id in s.traces)
      && (r == Accepted(id) <==>
            PendingFor(s, id, email, purpose, user) && now <= s.records[id].expiresAt && code == s.traces[id].code)
      && (r == Refused(NoPending) <==> forall x :: !PendingFor(s, x, email, purpose, user))
      && (forall x :: x in s.records && !PendingFor(s, x, email, purpose, user) ==>
            x in s'.records && s'.records[x] == s.records[x])
  {
    CheckIff(secret, s, email, purpose, user, code, now, id);
    var r := Check(secret, s, email, purpose, user, code, now).1;
    if r.Accepted? {
      CheckIff(secret, s, email, purpose, user, code, now, r.id);
    }
  }

  /** Should a record ever hold five attempts, an unexpired guess removes it unchecked. */
  lemma LockedIsRemoved(secret: Secret, s: State, id: RecordId, code: string, now: Time)
    requires id in s.records && s.records[id].attempts >= 5 && now <= s.records[id].expiresAt
    ensures CheckFound(secret, s, id, code, now) == (s.(records := s.records - {id}), Refused(TooManyAttempts))
  {
  }

  /** The three deletes: a pending code given up (for the user, if one is named), the expired codes,
      and the codes of a deleted user. */
  lemma DeletesEffect(s: State, email: string, purpose: string, user: Option<UserId>, now: Time, gone: UserId)
    ensures var after := Clear(s, email, purpose, user).records;
      && (forall x :: x in after <==>
            x in s.records && !(s.records[x].purpose == purpose && s.records[x].email == email
                                && (user.None? || s.records[x].userId == user)))
      && (forall x :: x in after ==> after[x] == s.records[x])
    ensures var after := PurgeExpired(s, now).records;
      && (forall x :: x in after <==> x in s.records && now < s.records[x].expiresAt)
      && (forall x :: x in after ==> after[x] == s.records[x])
    ensures var after := DropUser(s, gone).records;
      && (forall x :: x in after <==> x in s.records && s.records[x].userId != Some(gone))
      && (forall x :: x in after ==> after[x] == s.records[x])
  {
  }

  // ---- the table ----

  /** DELETE ... WHERE email = $1 AND purpose = $2. */
  function WithoutEmail(records: Records, email: string, purpose: string): Records {
    map x | x in records && !(records[x].email == email && records[x].purpose == purpose) :: records[x]
  }

  /** DELETE ... WHERE user_id = $1 AND purpose = $2. */
  function WithoutUser(records: Records, user: Option<UserId>, purpose: string): Records {
    map x | x in records && !(records[x].userId == user && records[x].purpose == purpose) :: records[x]
  }

  /** The two deletes leave no record in the way of the unique indexes. */
  lemma TwoDeletes(records: Records, email: string, purpose: string, user: Option<UserId>)
    ensures var left := if user.Some? then WithoutUser(WithoutEmail(records, email, purpose), user, purpose)
                        else WithoutEmail(records, email, purpose);
      && left == Supersede(records, email, purpose, user)
      && forall x :: x in left && left[x].purpose == purpose ==>
           left[x].email != email && (user.Some? ==> left[x].userId != user)
  {
  }

  class Table {
    const secret: Secret
    var records: Records
    ghost var traces: map<RecordId, Trace>

    constructor (secret: Secret)
      ensures Valid() && Contents() == Empty
    {
      this.secret := secret;
      records, traces := map[], map[];
    }

    ghost function Contents(): State
      reads this
    {
      State(records, traces)
    }

    ghost predicate Valid()
      reads this
    {
      Inv(secret, Contents())
    }

    method DeleteEmailVerification(id: RecordId)
      modifies this`records
      ensures records == Remove(old(records), {id})
    {
      records := records - {id};
    }

    /** The two deletes and the insert. */
    method ReplaceEmailVerification(id: RecordId, email: string, purpose: string, user: Option<UserId>, code: string, now: Time)
      requires Valid() && id !in traces && NulFree(email) && NulFree(purpose)
      modifies this
      ensures Valid() && Contents() == Issue(secret, old(Contents()), id, email, purpose, user, code, now)
    {
      IssueKeepsInv(secret, Contents(), id, email, purpose, user, code, now);
      var codeHash := HashVerificationCode(secret, purpose, email, code);
      records := WithoutEmail(records, email, purpose);
      if user.Some? {
        records := WithoutUser(records, user, purpose);
      }
      TwoDeletes(old(records), email, purpose, user);
      records := records[id := Record(email, purpose, user, codeHash, now + EXPIRY, 0)];
      traces := traces[id := Trace(code, 0, 0)];
    }

    lemma SameRecord(email: string, purpose: string, user: Option<UserId>, id: RecordId)
      requires Valid() && id in records && Matches(records[id], email, purpose, user)
      ensures FindPending(records, email, purpose, user) == Some(id)
    {
    }

    method LoadAndValidate(email: string, purpose: string, user: Option<UserId>, code: string, now: Time) returns (r: Result)
      requires Valid()
      modifies this
      ensures Valid() && (Contents(), r) == Check(secret, old(Contents()), email, purpose, user, code, now)
    {
      if id :| id in records && Matches(records[id], email, purpose, user) {
        SameRecord(email, purpose, user, id);
        CheckKeepsInv(secret, Contents(), id, code, now);
        assert RecordOk(secret, Contents(), id);
        r := Validate(id, code, now);
      } else {
        r := Refused(NoPending);
      }
    }

    method Validate(id: RecordId, code: string, now: Time) returns (r: Result)
      requires id in records
      modifies this
      ensures (Contents(), r) == CheckFound(secret, old(Contents()), id, code, now)
    {
      var record := records[id];
      if now > record.expiresAt {
        DeleteEmailVerification(id);
        return Refused(CodeExpired);
      }
      if record.attempts >= MAX_ATTEMPTS {
        DeleteEmailVerification(id);
        return Refused(TooManyAttempts);
      }
      var expectedHash := HashVerificationCode(secret, record.purpose, record.email, code);
      if expectedHash != record.codeHash {
        var nextAttempts := record.attempts + 1;
        traces := CountWrong(traces, id);
        if nextAttempts >= MAX_ATTEMPTS {
          DeleteEmailVerification(id);
          return Refused(TooManyAttempts);
        }
        records := records[id := record.(attempts := nextAttempts)];
        return Refused(WrongCode);
      }
      return Accepted(id);
    }

    /** What follows an accepted code (`follow` stands for the caller's own checks). */
    method RedeemCode(email: string, purpose: string, user: Option<UserId>, code: string, now: Time, follow: Follow)
      returns (r: Result)
      requires Valid()
      modifies this
      ensures Valid() && (Contents(), r) == Redeem(secret, old(Contents()), email, purpose, user, code, now, follow)
    {
      RedeemKeepsInv(secret, Contents(), email, purpose, user, code, now, follow);
      r := LoadAndValidate(email, purpose, user, code, now);
      if r.Accepted? && !follow.Keep? {
        if follow.Effect? {
          traces := Use(traces, r.id);
        }
        DeleteEmailVerification(r.id);
      }
    }
  }
}
