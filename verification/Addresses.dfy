// src/address/service.rs: the address book and its one default per user.
module Addresses {
  import opened Common

  type AddressId = nat     // ordered like the UUIDs that break ties of creation time
  type UserId = nat

  datatype Address = Address(userId: UserId, details: string, isDefault: bool, createdAt: Time)

  type Rows = map<AddressId, Address>

  datatype State = State(users: set<UserId>, rows: Rows)

  datatype Result = Done | UserNotFound | AddressNotFound

  function Of(rows: Rows, user: UserId): set<AddressId> {
    set id | id in rows && rows[id].userId == user
  }

  function Defaults(rows: Rows, user: UserId): set<AddressId> {
    set id | id in rows && rows[id].userId == user && rows[id].isDefault
  }

  // ---- ORDER BY created_at DESC, id DESC LIMIT 1 ----

  predicate Newer(rows: Rows, a: AddressId, b: AddressId)
    requires a in rows && b in rows
  {
    rows[a].createdAt > rows[b].createdAt || (rows[a].createdAt == rows[b].createdAt && a > b)
  }

  ghost predicate IsNewest(rows: Rows, s: set<AddressId>, x: AddressId)
    requires s <= rows.Keys
  {
    x in s && forall y :: y in s && y != x ==> Newer(rows, x, y)
  }

  lemma {:induction false} NewestExists(rows: Rows, s: set<AddressId>) returns (x: AddressId)
    requires s <= rows.Keys && s != {}
    ensures IsNewest(rows, s, x)
    decreases |s|
  {
    x :| x in s;
    if s != {x} {
      var first := x;
      var y := NewestExists(rows, s - {x});
      if Newer(rows, y, x) {
        x := y;
      }
      forall z | z in s && z != x ensures Newer(rows, x, z) {
        assert z == first || z == y || Newer(rows, y, z);
      }
    }
  }

  ghost function Replacement(rows: Rows, user: UserId, excluded: AddressId): (r: Option<AddressId>)
    ensures r.None? <==> Of(rows, user) <= {excluded}
    ensures r.Some? ==> IsNewest(rows, Of(rows, user) - {excluded}, r.value)
  {
    var others := Of(rows, user) - {excluded};
    if others == {} then None
    else
      assert exists x :: IsNewest(rows, others, x) by { var x := NewestExists(rows, others); }
      var x :| IsNewest(rows, others, x);
      Some(x)
  }

  // ---- the service functions ----

  function SetDefault(rows: Rows, id: AddressId, value: bool): Rows
    requires id in rows
  {
    rows[id := rows[id].(isDefault := value)]
  }

  /** UPDATE addresses SET is_default = FALSE WHERE user_id = $1 [AND id != $2]. */
  function Unset(rows: Rows, user: UserId, except: Option<AddressId>): Rows {
    map id | id in rows ::
      if rows[id].userId == user && Some(id) != except then rows[id].(isDefault := false) else rows[id]
  }

  function Create(s: State, user: UserId, id: AddressId, details: string, requested: Option<bool>, now: Time): (State, Result) {
    if user !in s.users then (s, UserNotFound)
    else
      var isDefault := requested.GetOr(false) || Of(s.rows, user) == {};
      var rows := if isDefault then Unset(s.rows, user, None) else s.rows;
      (s.(rows := rows[id := Address(user, details, isDefault, now)]), Done)
  }

  ghost function Update(s: State, user: UserId, id: AddressId, details: Option<string>, requested: Option<bool>): (State, Result) {
    if user !in s.users then (s, UserNotFound)
    else if id !in s.rows || s.rows[id].userId != user then (s, AddressNotFound)
    else
      var row := s.rows[id];
      var fallback := if requested == Some(false) && row.isDefault then Replacement(s.rows, user, id) else None;
      var next := if requested == Some(false) && row.isDefault && fallback.None? then true else requested.GetOr(row.isDefault);
      var rows := if requested == Some(true) then Unset(s.rows, user, Some(id)) else s.rows;
      var updated := rows[id := row.(details := details.GetOr(row.details), isDefault := next)];
      (s.(rows := if fallback.Some? then SetDefault(updated, fallback.value, true) else updated), Done)
  }

  ghost function Delete(s: State, user: UserId, id: AddressId): (State, Result) {
    if user !in s.users then (s, UserNotFound)
    else if id !in s.rows || s.rows[id].userId != user then (s, AddressNotFound)
    else
      var left := s.rows - {id};
      var fallback := if s.rows[id].isDefault then Replacement(left, user, id) else None;
      (s.(rows := if fallback.Some? then SetDefault(left, fallback.value, true) else left), Done)
  }

  // ---- what each does to the default ----

  ghost predicate AtMostOneDefault(rows: Rows) {
    forall a, b ::
      (a in rows && b in rows && rows[a].isDefault && rows[b].isDefault && rows[a].userId == rows[b].userId) ==> a == b
  }

  /** A user with at least one address has exactly one default. */
  ghost predicate Inv(s: State) {
    && AtMostOneDefault(s.rows)
    && forall id :: id in s.rows ==> Defaults(s.rows, s.rows[id].userId) != {}
  }

  lemma SingleDefault(rows: Rows, user: UserId, id: AddressId)
    requires AtMostOneDefault(rows) && id in rows && rows[id].userId == user && rows[id].isDefault
    ensures Defaults(rows, user) == {id}
  {
  }

  /** Nothing of this user's changed. */
  ghost predicate SameFor(rows: Rows, rows': Rows, user: UserId) {
    Of(rows', user) == Of(rows, user) && Defaults(rows', user) == Defaults(rows, user)
  }

  /** A new address is the default if asked for or if it is the first; otherwise the default stays. */
  lemma CreateDefault(s: State, user: UserId, id: AddressId, details: string, requested: Option<bool>, now: Time)
    requires Inv(s) && user in s.users && id !in s.rows
    ensures var rows := Create(s, user, id, details, requested, now).0.rows;
      && Of(rows, user) == Of(s.rows, user) + {id}
      && Defaults(rows, user)
         == (if requested == Some(true) || Of(s.rows, user) == {} then {id} else Defaults(s.rows, user))
  {
  }

  lemma CreateOthers(s: State, user: UserId, id: AddressId, details: string, requested: Option<bool>, now: Time, v: UserId)
    requires id !in s.rows && v != user
    ensures SameFor(s.rows, Create(s, user, id, details, requested, now).0.rows, v)
  {
  }

  /** Where the default is after an update: here if set here; on the newest other address if it was
      here and is un-set, or still here when there is no other; unmoved otherwise. */
  lemma UpdateDefault(s: State, user: UserId, id: AddressId, details: Option<string>, requested: Option<bool>)
    requires Inv(s) && user in s.users && id in s.rows && s.rows[id].userId == user
    ensures var rows := Update(s, user, id, details, requested).0.rows;
      && Of(rows, user) == Of(s.rows, user)
      && Defaults(rows, user)
         == if requested == Some(true) then {id}
            else if requested == Some(false) && s.rows[id].isDefault then {Replacement(s.rows, user, id).GetOr(id)}
            else Defaults(s.rows, user)
  {
    if s.rows[id].isDefault {
      SingleDefault(s.rows, user, id);
    }
  }

  /** An update changes the details of its own row only, and no row's creation time. */
  lemma UpdateDetails(s: State, user: UserId, id: AddressId, details: Option<string>, requested: Option<bool>, x: AddressId)
    requires user in s.users && id in s.rows && s.rows[id].userId == user && x in s.rows
    ensures var rows := Update(s, user, id, details, requested).0.rows;
      && x in rows && rows[x].createdAt == s.rows[x].createdAt
      && rows[x].details == if x == id && details.Some? then details.value else s.rows[x].details
  {
  }

  lemma UpdateOthers(s: State, user: UserId, id: AddressId, details: Option<string>, requested: Option<bool>, v: UserId)
    requires v != user
    ensures SameFor(s.rows, Update(s, user, id, details, requested).0.rows, v)
  {
  }

  lemma ReplacementAfterDelete(rows: Rows, user: UserId, id: AddressId)
    requires id in rows
    ensures Replacement(rows - {id}, user, id) == Replacement(rows, user, id)
  {
    var left := rows - {id};
    assert Of(left, user) - {id} == Of(rows, user) - {id};
  }

  /** Deleting the default promotes the newest remaining address; deleting another moves nothing. */
  lemma DeleteDefault(s: State, user: UserId, id: AddressId)
    requires Inv(s) && user in s.users && id in s.rows && s.rows[id].userId == user
    ensures var rows := Delete(s, user, id).0.rows;
      && Of(rows, user) == Of(s.rows, user) - {id}
      && Defaults(rows, user)
         == if !s.rows[id].isDefault then Defaults(s.rows, user)
            else var r := Replacement(s.rows, user, id); if r.Some? then {r.value} else {}
  {
    ReplacementAfterDelete(s.rows, user, id);
    if s.rows[id].isDefault {
      SingleDefault(s.rows, user, id);
    }
  }

  lemma DeleteOthers(s: State, user: UserId, id: AddressId, v: UserId)
    requires v != user
    ensures SameFor(s.rows, Delete(s, user, id).0.rows, v)
  {
  }

  // ---- everything else stays ----

  /** Apart from who is the default, a row is as it was; and a row of another user is wholly so. */
  ghost predicate Kept(rows: Rows, rows': Rows, user: UserId, id: AddressId)
    requires id in rows
  {
    && id in rows'
    && rows'[id].userId == rows[id].userId && rows'[id].details == rows[id].details
    && rows'[id].createdAt == rows[id].createdAt
    && (rows[id].userId != user ==> rows'[id] == rows[id])
  }

  /** Creating succeeds for an existing user and adds one row; no other row but the default flags of
      the user's changes. */
  lemma CreateIff(s: State, user: UserId, id: AddressId, details: string, requested: Option<bool>, now: Time)
    requires id !in s.rows
    ensures var (s', r) := Create(s, user, id, details, requested, now);
      && (r == Done <==> user in s.users) && (r != Done ==> r == UserNotFound && s' == s)
      && (r == Done ==>
            && s'.users == s.users && s'.rows.Keys == s.rows.Keys + {id}
            && s'.rows[id].userId == user && s'.rows[id].details == details && s'.rows[id].createdAt == now
            && forall x :: x in s.rows ==> Kept(s.rows, s'.rows, user, x))
  {
  }

  ghost predicate OwnedBy(s: State, user: UserId, id: AddressId) {
    user in s.users && id in s.rows && s.rows[id].userId == user
  }

  /** Updating succeeds for the user's own address only, and changes no row but it and the default
      flags of the user's; what it sets there is in `UpdateDetails` and `UpdateDefault`. */
  lemma UpdateIff(s: State, user: UserId, id: AddressId, details: Option<string>, requested: Option<bool>)
    ensures var (s', r) := Update(s, user, id, details, requested);
      && (r == Done <==> OwnedBy(s, user, id))
      && (r == UserNotFound <==> user !in s.users)
      && (r != Done ==> s' == s)
      && (r == Done ==>
            && s'.users == s.users && s'.rows.Keys == s.rows.Keys
            && forall x :: x in s.rows && x != id ==> Kept(s.rows, s'.rows, user, x))
  {
  }

  /** Deleting succeeds for the user's own address only, removes it, and changes no other row but the
      default flag of the one promoted. */
  lemma DeleteIff(s: State, user: UserId, id: AddressId)
    ensures var (s', r) := Delete(s, user, id);
      && (r == Done <==> OwnedBy(s, user, id))
      && (r == UserNotFound <==> user !in s.users)
      && (r != Done ==> s' == s)
      && (r == Done ==>
            && s'.users == s.users && s'.rows.Keys == s.rows.Keys - {id}
            && forall x :: x in s.rows && x != id ==> Kept(s.rows, s'.rows, user, x))
  {
    if OwnedBy(s, user, id) {
      ReplacementAfterDelete(s.rows, user, id);
    }
  }

  // ---- runs ----

  datatype Op =
    | AddUserOp(user: UserId)
    | CreateOp(user: UserId, id: AddressId, details: string, requested: Option<bool>, now: Time)
    | UpdateOp(user: UserId, id: AddressId, newDetails: Option<string>, requested: Option<bool>)
    | DeleteOp(user: UserId, id: AddressId)

  ghost function Step(s: State, op: Op): State {
    match op
    case AddUserOp(user) => s.(users := s.users + {user})
    case CreateOp(user, id, details, requested, now) => Create(s, user, id, details, requested, now).0
    case UpdateOp(user, id, details, requested) => Update(s, user, id, details, requested).0
    case DeleteOp(user, id) => Delete(s, user, id).0
  }

  predicate Possible(s: State, op: Op) {
    op.CreateOp? ==> op.id !in s.rows
  }

  ghost predicate ValidRun(s: State, ops: seq<Op>)
    decreases |ops|
  {
    ops == [] || (Possible(s, ops[0]) && ValidRun(Step(s, ops[0]), ops[1..]))
  }

  ghost function Run(s: State, ops: seq<Op>): State
    requires ValidRun(s, ops)
    decreases |ops|
  {
    if ops == [] then s else Run(Step(s, ops[0]), ops[1..])
  }

  /** From the sets of addresses and defaults to the invariant. */
  lemma InvByDefaults(s: State)
    requires forall v :: |Defaults(s.rows, v)| <= 1 && (Of(s.rows, v) != {} ==> Defaults(s.rows, v) != {})
    ensures Inv(s)
  {
    forall a, b | a in s.rows && b in s.rows && s.rows[a].isDefault && s.rows[b].isDefault && s.rows[a].userId == s.rows[b].userId
      ensures a == b
    {
      var d := Defaults(s.rows, s.rows[a].userId);
      assert a in d && b in d;
      assert |d - {a}| == 0;
      assert b !in d - {a};
    }
    forall id | id in s.rows ensures Defaults(s.rows, s.rows[id].userId) != {} {
      assert id in Of(s.rows, s.rows[id].userId);
    }
  }

  lemma DefaultsByInv(s: State, v: UserId)
    requires Inv(s)
    ensures |Defaults(s.rows, v)| <= 1 && (Of(s.rows, v) != {} ==> |Defaults(s.rows, v)| == 1)
  {
    if x :| x in Defaults(s.rows, v) {
      SingleDefault(s.rows, v, x);
    }
    if y :| y in Of(s.rows, v) {
      assert s.rows[y].userId == v;
    }
  }

  lemma InvFor(s: State, s': State, user: UserId)
    requires Inv(s) && forall v :: v != user ==> SameFor(s.rows, s'.rows, v)
    requires |Defaults(s'.rows, user)| <= 1 && (Of(s'.rows, user) != {} ==> Defaults(s'.rows, user) != {})
    ensures Inv(s')
  {
    forall v ensures |Defaults(s'.rows, v)| <= 1 && (Of(s'.rows, v) != {} ==> Defaults(s'.rows, v) != {}) {
      if v != user {
        assert SameFor(s.rows, s'.rows, v);
        DefaultsByInv(s, v);
      }
    }
    InvByDefaults(s');
  }

  lemma StepKeepsInv(s: State, op: Op)
    requires Inv(s) && Possible(s, op)
    ensures Inv(Step(s, op))
  {
    var s' := Step(s, op);
    match op
    case AddUserOp(user) =>
    case CreateOp(user, id, details, requested, now) =>
      if user in s.users {
        CreateDefault(s, user, id, details, requested, now);
        DefaultsByInv(s, user);
        forall v | v != user ensures SameFor(s.rows, s'.rows, v) {
          CreateOthers(s, user, id, details, requested, now, v);
        }
        InvFor(s, s', user);
      }
    case UpdateOp(user, id, details, requested) =>
      if user in s.users && id in s.rows && s.rows[id].userId == user {
        UpdateDefault(s, user, id, details, requested);
        DefaultsByInv(s, user);
        forall v | v != user ensures SameFor(s.rows, s'.rows, v) {
          UpdateOthers(s, user, id, details, requested, v);
        }
        InvFor(s, s', user);
      }
    case DeleteOp(user, id) =>
      if user in s.users && id in s.rows && s.rows[id].userId == user {
        DeleteDefault(s, user, id);
        DefaultsByInv(s, user);
        forall v | v != user ensures SameFor(s.rows, s'.rows, v) {
          DeleteOthers(s, user, id, v);
        }
        InvFor(s, s', user);
      }
  }

  lemma {:induction false} RunKeepsInv(s: State, ops: seq<Op>)
    requires Inv(s) && ValidRun(s, ops)
    ensures Inv(Run(s, ops))
    decreases |ops|
  {
    if ops != [] {
      StepKeepsInv(s, ops[0]);
      RunKeepsInv(Step(s, ops[0]), ops[1..]);
    }
  }

  /** After every sequence of operations a user with an address has exactly one default. */
  lemma ExactlyOneDefault(ops: seq<Op>, user: UserId)
    requires ValidRun(State({}, map[]), ops)
    ensures var rows := Run(State({}, map[]), ops).rows;
      |Defaults(rows, user)| == if Of(rows, user) == {} then 0 else 1
  {
    RunKeepsInv(State({}, map[]), ops);
    var s := Run(State({}, map[]), ops);
    DefaultsByInv(s, user);
    if Of(s.rows, user) == {} {
      assert Defaults(s.rows, user) == {};
    }
  }

  // ---- the table ----

  class Book {
    var users: set<UserId>
    var rows: Rows

    constructor ()
      ensures Contents() == State({}, map[]) && Valid()
    {
      users, rows := {}, map[];
    }

    ghost function Contents(): State
      reads this
    {
      State(users, rows)
    }

    ghost predicate Valid()
      reads this
    {
      Inv(Contents())
    }

    method SelectReplacementAddressId(user: UserId, excluded: AddressId) returns (r: Option<AddressId>)
      ensures r == Replacement(rows, user, excluded)
    {
      var others := Of(rows, user) - {excluded};
      if others == {} {
        return None;
      }
      ghost var newest := NewestExists(rows, others);
      var x :| x in others && forall y :: y in others && y != x ==> Newer(rows, x, y);
      assert IsNewest(rows, others, x);
      return Some(x);
    }

    method PromoteAddressToDefault(id: AddressId)
      requires id in rows
      modifies this`rows
      ensures rows == SetDefault(old(rows), id, true)
    {
      rows := SetDefault(rows, id, true);
    }

    method CreateAddress(user: UserId, id: AddressId, details: string, requested: Option<bool>, now: Time) returns (r: Result)
      requires Valid() && id !in rows
      modifies this
      ensures Valid() && (Contents(), r) == Create(old(Contents()), user, id, details, requested, now)
    {
      StepKeepsInv(Contents(), CreateOp(user, id, details, requested, now));
      if user !in users {
        return UserNotFound;
      }
      var isDefault := requested.GetOr(false) || Of(rows, user) == {};
      if isDefault {
        rows := Unset(rows, user, None);
        assert AtMostOneDefault(rows);
      }
      rows := rows[id := Address(user, details, isDefault, now)];
      return Done;
    }

    method UpdateAddress(user: UserId, id: AddressId, details: Option<string>, requested: Option<bool>) returns (r: Result)
      requires Valid()
      modifies this
      ensures Valid() && (Contents(), r) == Update(old(Contents()), user, id, details, requested)
    {
      StepKeepsInv(Contents(), UpdateOp(user, id, details, requested));
      if user !in users {
        return UserNotFound;
      }
      if id !in rows || rows[id].userId != user {
        return AddressNotFound;
      }
      var existing := rows[id];
      var fallback: Option<AddressId> := None;
      if requested == Some(false) && existing.isDefault {
        fallback := SelectReplacementAddressId(user, id);
      }
      var nextIsDefault := requested;
      if requested == Some(false) && existing.isDefault {
        nextIsDefault := if fallback.Some? then Some(false) else Some(true);
      }
      if requested == Some(true) {
        rows := Unset(rows, user, Some(id));
        assert AtMostOneDefault(rows);
      }
      rows := rows[id := existing.(details := details.GetOr(existing.details), isDefault := nextIsDefault.GetOr(existing.isDefault))];
      assert AtMostOneDefault(rows);
      if fallback.Some? {
        PromoteAddressToDefault(fallback.value);
      }
      return Done;
    }

    method DeleteAddress(user: UserId, id: AddressId) returns (r: Result)
      requires Valid()
      modifies this
      ensures Valid() && (Contents(), r) == Delete(old(Contents()), user, id)
    {
      StepKeepsInv(Contents(), DeleteOp(user, id));
      if user !in users {
        return UserNotFound;
      }
      if id !in rows || rows[id].userId != user {
        return AddressNotFound;
      }
      var address := rows[id];
      rows := rows - {id};
      assert AtMostOneDefault(rows);
      if address.isDefault {
        var fallback := SelectReplacementAddressId(user, id);
        if fallback.Some? {
          PromoteAddressToDefault(fallback.value);
        }
      }
      return Done;
    }
  }
}
