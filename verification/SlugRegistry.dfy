// src/product/service.rs and src/category/service.rs: the current slug of every product or
// category, and the history of its former slugs.
module SlugRegistry {
  import opened Common
  import opened Slugs
  import opened Uuids

  type EntityId = string     // the canonical text of a UUID

  /** The character classes, and the slug of a name without any letter or digit. */
  datatype Naming = Naming(letters: Classes, fallback: string) {
    /** The slug of a name before the search for a free one. */
    function Plain(name: string): string {
      Slugify(letters, name, fallback)
    }

    ghost predicate IsSlug(s: string) {
      NormalForm(letters, s)
    }

    ghost predicate Valid() {
      Lawful(letters) && IsSlug(fallback)
    }
  }

  datatype Entity = Entity(slug: string, active: bool)

  /** The entities and the slug history of one kind, with two histories: the ids ever used, and
      every slug ever assigned to an entity that still exists. */
  datatype State = State(
    entities: map<EntityId, Entity>,
    history: map<string, EntityId>,
    ids: set<EntityId>,
    owners: map<string, EntityId>
  )

  // ---- the search for a free slug ----

  /** Slugs the search must avoid: the other entities' current ones and the whole history. */
  function Taken(s: State, exclude: Option<EntityId>): set<string> {
    (set id | id in s.entities && Some(id) != exclude :: s.entities[id].slug) + s.history.Keys
  }

  ghost predicate AllTaken(base: string, taken: set<string>, n: nat) {
    forall k: nat :: 1 <= k < n ==> AppendSlugSuffix(base, k) in taken
  }

  /** The first suffix whose candidate is free. */
  ghost predicate FirstFree(base: string, taken: set<string>, suffix: nat) {
    suffix >= 1 && AppendSlugSuffix(base, suffix) !in taken && AllTaken(base, taken, suffix)
  }

  /** The candidates with suffixes 2, ..., n - 1. */
  function Candidates(base: string, n: nat): (c: set<string>)
    requires n >= 2
  {
    set k | 2 <= k < n :: AppendSlugSuffix(base, k)
  }

  lemma NewCandidate(base: string, n: nat)
    requires n >= 2
    ensures AppendSlugSuffix(base, n) !in Candidates(base, n)
  {
    if k :| 2 <= k < n && AppendSlugSuffix(base, n) == AppendSlugSuffix(base, k) {
      CandidatesDistinct(base, k, n);
    }
  }

  lemma OneMoreCandidate(base: string, n: nat)
    requires n >= 2
    ensures Candidates(base, n + 1) == Candidates(base, n) + {AppendSlugSuffix(base, n)}
  {
  }

  lemma {:induction false} CandidatesCount(base: string, n: nat)
    requires n >= 2
    ensures |Candidates(base, n)| == n - 2
  {
    if n == 2 {
      assert Candidates(base, 2) == {};
    } else {
      CandidatesCount(base, n - 1);
      NewCandidate(base, n - 1);
      OneMoreCandidate(base, n - 1);
    }
  }

  lemma {:induction false} SubsetSize(a: set<string>, b: set<string>)
    requires a <= b
    ensures |a| <= |b|
  {
    if a != {} {
      var x :| x in a;
      SubsetSize(a - {x}, b - {x});
    }
  }

  /** Pigeonhole: with every candidate below `suffix` taken, the suffix is at most |taken| + 2. */
  lemma SearchBound(base: string, taken: set<string>, suffix: nat)
    requires suffix >= 1 && AllTaken(base, taken, suffix)
    ensures suffix <= |taken| + 2
  {
    if suffix >= 2 {
      CandidatesCount(base, suffix);
      SubsetSize(Candidates(base, suffix), taken);
    }
  }

  ghost function FreeSuffix(base: string, taken: set<string>, suffix: nat): (found: nat)
    requires suffix >= 1 && AllTaken(base, taken, suffix)
    ensures FirstFree(base, taken, found) && found <= |taken| + 2
    decreases |taken| + 2 - suffix
  {
    SearchBound(base, taken, suffix);
    if AppendSlugSuffix(base, suffix) !in taken then suffix
    else
      SearchBound(base, taken, suffix + 1);
      FreeSuffix(base, taken, suffix + 1)
  }

  ghost function UniqueSlug(base: string, taken: set<string>): (slug: string)
    ensures slug !in taken
  {
    AppendSlugSuffix(base, FreeSuffix(base, taken, 1))
  }

  lemma FirstFreeUnique(base: string, taken: set<string>, m: nat, n: nat)
    requires FirstFree(base, taken, m) && FirstFree(base, taken, n)
    ensures m == n
  {
  }

  /** The chosen slug is the first free candidate, found among the first |taken| + 2. */
  lemma UniqueSlugIs(base: string, taken: set<string>, n: nat)
    requires FirstFree(base, taken, n)
    ensures UniqueSlug(base, taken) == AppendSlugSuffix(base, n) && n <= |taken| + 2
  {
    FirstFreeUnique(base, taken, n, FreeSuffix(base, taken, 1));
  }

  lemma UniqueSlugNormal(u: Unicode, base: string, taken: set<string>)
    requires NormalForm(u, base) && |taken| + 2 < U32_LIMIT
    ensures NormalForm(u, UniqueSlug(base, taken))
  {
    AppendNormal(u, base, FreeSuffix(base, taken, 1));
  }

  // ---- the service functions ----

  /** A new row with its slug. */
  function Insert(s: State, id: EntityId, slug: string): State {
    State(s.entities[id := Entity(slug, true)], s.history, s.ids + {id}, s.owners[slug := id])
  }

  /** The row moves to another slug and the old one goes to the history, ON CONFLICT DO NOTHING. */
  function Move(s: State, id: EntityId, next: string): State
    requires id in s.entities
  {
    var former := s.entities[id].slug;
    s.(entities := s.entities[id := s.entities[id].(slug := next)],
       history := if former in s.history then s.history else s.history[former := id],
       owners := s.owners[next := id])
  }

  ghost function Create(s: State, id: EntityId, name: string, names: Naming): State {
    Insert(s, id, UniqueSlug(names.Plain(name), Taken(s, None)))
  }

  predicate Regenerates(s: State, id: EntityId, name: Option<string>, names: Naming)
    requires id in s.entities
  {
    name.Some? && names.Plain(name.value) != s.entities[id].slug
  }

  ghost function NextSlug(s: State, id: EntityId, name: string, names: Naming): (slug: string)
    ensures slug !in Taken(s, Some(id))
  {
    UniqueSlug(names.Plain(name), Taken(s, Some(id)))
  }

  /** A product update may leave the name out; a category update always has one. */
  ghost function Rename(s: State, id: EntityId, name: Option<string>, names: Naming): State {
    if id !in s.entities || !Regenerates(s, id, name, names) then s
    else Move(s, id, NextSlug(s, id, name.value, names))
  }

  function SetActive(s: State, id: EntityId, active: bool): State {
    if id !in s.entities then s else s.(entities := s.entities[id := s.entities[id].(active := active)])
  }

  datatype Deletion = Deleted | NotFound | InUse

  /** Deleting a category takes its history with it. */
  function Remove(s: State, id: EntityId): State {
    s.(entities := s.entities - {id},
       history := map slug | slug in s.history && s.history[slug] != id :: s.history[slug],
       owners := map slug | slug in s.owners && s.owners[slug] != id :: s.owners[slug])
  }

  ghost predicate HasSlug(s: State, id: EntityId, slug: string) {
    id in s.entities && s.entities[id].slug == slug && s.entities[id].active
  }

  predicate IsActive(s: State, id: EntityId) {
    id in s.entities && s.entities[id].active
  }

  /** By current slug, else by history; only active entities are found. */
  ghost function BySlug(s: State, slug: string): (r: Option<EntityId>)
    ensures r.Some? ==> IsActive(s, r.value)
  {
    if exists id :: HasSlug(s, id, slug) then
      var id :| HasSlug(s, id, slug); Some(id)
    else if slug in s.history && IsActive(s, s.history[slug]) then Some(s.history[slug])
    else None
  }

  /** By row id if the identifier is the text of an active row's, else by slug. */
  ghost function Lookup(names: Naming, s: State, identifier: string): (r: Option<EntityId>)
    ensures r.Some? ==> IsActive(s, r.value)
  {
    var parsed := ParseUuid(identifier);
    if parsed.Some? && IsActive(s, parsed.value) then parsed
    else
      var slug := NormalizeSlugLookup(names.letters, identifier);
      if slug.None? then None else BySlug(s, slug.value)
  }

  // ---- runs ----

  datatype Op =
    | CreateOp(id: EntityId, name: string)
    | RenameOp(id: EntityId, newName: Option<string>)
    | SetActiveOp(id: EntityId, active: bool)
    | RemoveOp(id: EntityId)

  /** Ids are not reused, and there are fewer slugs than suffixes. */
  ghost predicate Possible(s: State, op: Op) {
    && (op.CreateOp? ==> op.id !in s.ids && IsUuid(op.id))
    && |Taken(s, None)| + 3 < U32_LIMIT
  }

  ghost function Step(s: State, op: Op, names: Naming): State
    requires Possible(s, op)
  {
    match op
    case CreateOp(id, name) => Create(s, id, name, names)
    case RenameOp(id, name) => Rename(s, id, name, names)
    case SetActiveOp(id, active) => SetActive(s, id, active)
    case RemoveOp(id) => Remove(s, id)
  }

  ghost predicate ValidRun(s: State, ops: seq<Op>, names: Naming)
    decreases |ops|
  {
    ops == [] || (Possible(s, ops[0]) && ValidRun(Step(s, ops[0], names), ops[1..], names))
  }

  ghost function Run(s: State, ops: seq<Op>, names: Naming): State
    requires ValidRun(s, ops, names)
    decreases |ops|
  {
    if ops == [] then s else Run(Step(s, ops[0], names), ops[1..], names)
  }

  const Empty: State := State(map[], map[], {}, map[])

  // ---- the invariant ----

  /** Every slug ever assigned to an existing entity is its current slug or a history entry
      pointing to it; and there are no other current slugs or history entries. */
  ghost predicate Owned(s: State) {
    && (forall id :: id in s.entities ==>
          id in s.ids && s.entities[id].slug in s.owners && s.owners[s.entities[id].slug] == id)
    && (forall slug :: slug in s.history ==> slug in s.owners && s.owners[slug] == s.history[slug])
    && (forall slug :: slug in s.owners ==>
          && s.owners[slug] in s.entities
          && (s.entities[s.owners[slug]].slug == slug || (slug in s.history && s.history[slug] == s.owners[slug])))
  }

  ghost predicate AllNormal(names: Naming, slugs: set<string>) {
    forall slug :: slug in slugs ==> names.IsSlug(slug)
  }

  ghost predicate Inv(names: Naming, s: State) {
    Owned(s) && AllNormal(names, s.owners.Keys)
  }

  /** A slug the search may return is owned by nobody but the excluded entity. */
  lemma FreeSlugOwner(s: State, exclude: Option<EntityId>, slug: string)
    requires Owned(s) && slug !in Taken(s, exclude)
    ensures slug in s.owners ==> exclude == Some(s.owners[slug])
  {
  }

  lemma TakenSizes(s: State, id: EntityId)
    requires id in s.entities
    ensures |Taken(s, Some(id))| <= |Taken(s, None)|
  {
    SubsetSize(Taken(s, Some(id)), Taken(s, None));
  }

  lemma CreateKeepsInv(s: State, id: EntityId, name: string, names: Naming)
    requires Inv(names, s) && id !in s.ids && names.Valid() && |Taken(s, None)| + 3 < U32_LIMIT
    ensures Inv(names, Create(s, id, name, names))
  {
    SlugifyNormal(names.letters, name, names.fallback);
    UniqueSlugNormal(names.letters, names.Plain(name), Taken(s, None));
    CreatedOwned(s, id, UniqueSlug(names.Plain(name), Taken(s, None)));
  }

  lemma CreatedOwned(s: State, id: EntityId, slug: string)
    requires Owned(s) && id !in s.ids && slug !in Taken(s, None)
    ensures Owned(Insert(s, id, slug)) && slug !in s.owners
  {
    FreeSlugOwner(s, None, slug);
  }

  lemma MovedOwned(s: State, id: EntityId, next: string)
    requires Owned(s) && id in s.entities && next !in Taken(s, Some(id))
    ensures Owned(Move(s, id, next))
  {
    FreeSlugOwner(s, Some(id), next);
  }

  lemma RenameKeepsInv(s: State, id: EntityId, name: Option<string>, names: Naming)
    requires Inv(names, s) && names.Valid() && |Taken(s, None)| + 3 < U32_LIMIT
    ensures Inv(names, Rename(s, id, name, names))
  {
    if id in s.entities && Regenerates(s, id, name, names) {
      TakenSizes(s, id);
      SlugifyNormal(names.letters, name.value, names.fallback);
      UniqueSlugNormal(names.letters, names.Plain(name.value), Taken(s, Some(id)));
      MovedOwned(s, id, NextSlug(s, id, name.value, names));
    }
  }

  lemma RemoveAbsent(s: State, id: EntityId)
    requires Owned(s) && id !in s.entities
    ensures Remove(s, id) == s
  {
    assert Remove(s, id).entities == s.entities;
    assert Remove(s, id).history == s.history;
    assert Remove(s, id).owners == s.owners;
  }

  lemma SetActiveKeepsOwned(s: State, id: EntityId, active: bool)
    requires Owned(s)
    ensures Owned(SetActive(s, id, active)) && SetActive(s, id, active).owners == s.owners
  {
  }

  lemma RemoveKeepsOwned(s: State, id: EntityId)
    requires Owned(s)
    ensures Owned(Remove(s, id)) && Remove(s, id).owners.Keys <= s.owners.Keys
  {
  }

  lemma StepKeepsInv(s: State, op: Op, names: Naming)
    requires Inv(names, s) && Possible(s, op) && names.Valid()
    ensures Inv(names, Step(s, op, names))
  {
    match op
    case CreateOp(id, name) => CreateKeepsInv(s, id, name, names);
    case RenameOp(id, name) => RenameKeepsInv(s, id, name, names);
    case SetActiveOp(id, active) => SetActiveKeepsOwned(s, id, active);
    case RemoveOp(id) => RemoveKeepsOwned(s, id);
  }

  lemma {:induction false} RunKeepsInv(s: State, ops: seq<Op>, names: Naming)
    requires Inv(names, s) && ValidRun(s, ops, names) && names.Valid()
    ensures Inv(names, Run(s, ops, names))
    decreases |ops|
  {
    if ops != [] {
      StepKeepsInv(s, ops[0], names);
      RunKeepsInv(Step(s, ops[0], names), ops[1..], names);
    }
  }

  // ---- permanence ----

  ghost predicate OwnerKept(s: State, s': State, slug: string)
    requires slug in s.owners
  {
    s.owners[slug] in s'.entities ==> slug in s'.owners && s'.owners[slug] == s.owners[slug]
  }

  lemma FreshSlugKeepsOwners(s: State, exclude: Option<EntityId>, id: EntityId, next: string, slug: string)
    requires Owned(s) && next !in Taken(s, exclude) && slug in s.owners
    requires exclude.None? || (exclude == Some(id) && id in s.entities)
    ensures exclude.None? ==> OwnerKept(s, Insert(s, id, next), slug)
    ensures exclude.Some? ==> OwnerKept(s, Move(s, id, next), slug)
  {
  }

  lemma CreateKeepsOwner(s: State, id: EntityId, name: string, names: Naming, slug: string)
    requires Owned(s) && slug in s.owners
    ensures OwnerKept(s, Create(s, id, name, names), slug)
  {
    FreshSlugKeepsOwners(s, None, id, UniqueSlug(names.Plain(name), Taken(s, None)), slug);
  }

  lemma RenameKeepsOwner(s: State, id: EntityId, name: Option<string>, names: Naming, slug: string)
    requires Owned(s) && slug in s.owners
    ensures OwnerKept(s, Rename(s, id, name, names), slug)
  {
    if id in s.entities && Regenerates(s, id, name, names) {
      FreshSlugKeepsOwners(s, Some(id), id, NextSlug(s, id, name.value, names), slug);
    }
  }

  lemma RemoveKeepsOwner(s: State, id: EntityId, slug: string)
    requires slug in s.owners
    ensures OwnerKept(s, Remove(s, id), slug)
  {
  }

  /** While the entity exists, an assignment is never undone or handed to another entity. */
  lemma StepKeepsOwner(s: State, op: Op, names: Naming, slug: string)
    requires Owned(s) && Possible(s, op) && slug in s.owners
    ensures OwnerKept(s, Step(s, op, names), slug)
  {
    match op
    case CreateOp(id, name) => CreateKeepsOwner(s, id, name, names, slug);
    case RenameOp(id, name) => RenameKeepsOwner(s, id, name, names, slug);
    case SetActiveOp(id, active) => SetActiveKeepsOwned(s, id, active);
    case RemoveOp(id) => RemoveKeepsOwner(s, id, slug);
  }

  lemma StepKeepsGone(s: State, op: Op, names: Naming, id: EntityId)
    requires Possible(s, op) && id in s.ids
    ensures id in Step(s, op, names).ids
    ensures id !in s.entities ==> id !in Step(s, op, names).entities
  {
  }

  lemma {:induction false} RunKeepsGone(s: State, ops: seq<Op>, names: Naming, id: EntityId)
    requires ValidRun(s, ops, names) && id in s.ids && id !in s.entities
    ensures id !in Run(s, ops, names).entities
    decreases |ops|
  {
    if ops != [] {
      StepKeepsGone(s, ops[0], names, id);
      RunKeepsGone(Step(s, ops[0], names), ops[1..], names, id);
    }
  }

  lemma {:induction false} RunKeepsOwner(s: State, ops: seq<Op>, names: Naming, slug: string)
    requires Inv(names, s) && ValidRun(s, ops, names) && names.Valid() && slug in s.owners
    requires s.owners[slug] in Run(s, ops, names).entities
    ensures var s' := Run(s, ops, names); slug in s'.owners && s'.owners[slug] == s.owners[slug]
    decreases |ops|
  {
    if ops != [] {
      var s1 := Step(s, ops[0], names);
      StepKeepsInv(s, ops[0], names);
      StepKeepsOwner(s, ops[0], names, slug);
      StepKeepsGone(s, ops[0], names, s.owners[slug]);
      if s.owners[slug] !in s1.entities {
        RunKeepsGone(s1, ops[1..], names, s.owners[slug]);
      }
      RunKeepsOwner(s1, ops[1..], names, slug);
    }
  }

  lemma BySlugFindsOwner(s: State, slug: string)
    requires Owned(s) && slug in s.owners
    ensures BySlug(s, slug) == if IsActive(s, s.owners[slug]) then Some(s.owners[slug]) else None
  {
    var id := s.owners[slug];
    if HasSlug(s, id, slug) {
      assert exists x :: HasSlug(s, x, slug);
    }
    forall x | HasSlug(s, x, slug) ensures x == id { }
  }

  /** In a reachable state, looking an assigned slug up finds its entity if and only if that is
      active and the slug is not the text of another active row's id. */
  lemma LookupFindsOwner(names: Naming, s: State, slug: string)
    requires names.Valid() && Inv(names, s) && slug in s.owners
    ensures Lookup(names, s, slug) == Some(s.owners[slug]) <==>
      IsActive(s, s.owners[slug]) && !Shadowed(s, slug, s.owners[slug])
    ensures !Shadowed(s, slug, s.owners[slug]) && !IsActive(s, s.owners[slug]) ==> Lookup(names, s, slug) == None
  {
    LookupKeepsSlugs(names.letters, slug);
    BySlugFindsOwner(s, slug);
  }

  /** The identifier is the text of the id of an active row other than this one. */
  predicate Shadowed(s: State, identifier: string, id: EntityId) {
    var parsed := ParseUuid(identifier);
    parsed.Some? && IsActive(s, parsed.value) && parsed.value != id
  }

  /** Slug permanence: a slug an entity has now finds that entity after any further run, whatever
      it and the others were renamed to, if and only if the entity still exists and is active and
      no other active row has that text for an id. */
  lemma SlugsArePermanent(names: Naming, s: State, ops: seq<Op>, id: EntityId)
    requires Inv(names, s) && ValidRun(s, ops, names) && names.Valid() && id in s.entities
    ensures var s' := Run(s, ops, names);
      Lookup(names, s', s.entities[id].slug) == Some(id) <==> IsActive(s', id) && !Shadowed(s', s.entities[id].slug, id)
  {
    var slug, s' := s.entities[id].slug, Run(s, ops, names);
    RunKeepsInv(s, ops, names);
    if id in s'.entities {
      RunKeepsOwner(s, ops, names, slug);
      LookupFindsOwner(names, s', slug);
    }
  }

  /** A row is always found by the text of its id, if it is active. */
  lemma LookupById(names: Naming, s: State, id: EntityId)
    requires IsUuid(id) && IsActive(s, id)
    ensures Lookup(names, s, id) == Some(id)
  {
    ParsedIsUuid(id);
  }

  // ---- an id as a name ----

  /** The text of an id is a slug, so `slugify` leaves it alone. */
  lemma UuidIsSlug(u: Unicode, id: string)
    requires IsUuid(id)
    ensures NormalForm(u, id)
  {
    forall i | 0 <= i < |id| ensures SlugChar(u, id[i]) {
      assert id[i] == '-' || IsDigit(id[i]) || IsAsciiLower(id[i]);
    }
  }

  lemma FreeNameIsSlug(names: Naming, name: string, taken: set<string>)
    requires names.Valid() && names.IsSlug(name) && name !in taken
    ensures UniqueSlug(names.Plain(name), taken) == name
  {
    SlugifyFixesSlugs(names.letters, name, names.fallback);
    TruncateClean(names.letters, name, MAX_SLUG_LENGTH);
    assert FirstFree(name, taken, 1);
    UniqueSlugIs(name, taken, 1);
  }

  /** A row named after the id of an active row gets that text as its slug, and its slug then finds
      the other row. */
  lemma IdShadowsSlug(names: Naming, s: State, a: EntityId, b: EntityId)
    requires names.Valid() && IsUuid(a) && IsActive(s, a) && b !in s.ids && b != a && a !in Taken(s, None)
    ensures var s' := Create(s, b, a, names);
      s'.entities[b] == Entity(a, true) && Lookup(names, s', s'.entities[b].slug) == Some(a)
  {
    UuidIsSlug(names.letters, a);
    FreeNameIsSlug(names, a, Taken(s, None));
    LookupById(names, Create(s, b, a, names), a);
  }

  lemma FirstSlug(names: Naming)
    requires names.Valid()
    ensures UniqueSlug(names.Plain("x"), {}) == "x"
  {
    XIsSlug(names);
    FreeNameIsSlug(names, "x", {});
  }

  /** The first row of all is called "x". */
  lemma FirstRow(names: Naming, a: EntityId)
    requires names.Valid() && IsUuid(a)
    ensures Possible(Empty, CreateOp(a, "x"))
    ensures Create(Empty, a, "x", names) == Insert(Empty, a, "x")
    ensures Taken(Create(Empty, a, "x", names), None) == {"x"}
  {
    assert Taken(Empty, None) == {};
    FirstSlug(names);
    TakenAfterFirst(a);
  }

  lemma TakenAfterFirst(a: EntityId)
    ensures Taken(Insert(Empty, a, "x"), None) == {"x"}
  {
    assert Insert(Empty, a, "x").entities[a].slug == "x";
  }

  lemma CreatePossible(s: State, b: EntityId, name: string)
    requires b !in s.ids && IsUuid(b) && Taken(s, None) == {"x"}
    ensures Possible(s, CreateOp(b, name))
  {
  }

  /** It happens from the start: a first row, and a second one named after its id. */
  lemma ShadowedFromTheStart(names: Naming, a: EntityId, b: EntityId)
    requires names.Valid() && IsUuid(a) && IsUuid(b) && a != b
    ensures var ops := [CreateOp(a, "x"), CreateOp(b, a)];
      && ValidRun(Empty, ops, names)
      && (var s := Run(Empty, ops, names);
          && b in s.entities && s.entities[b] == Entity(a, true)
          && Lookup(names, s, s.entities[b].slug) == Some(a))
  {
    FirstRow(names, a);
    var s1 := Create(Empty, a, "x", names);
    CreatePossible(s1, b, a);
    IdShadowsSlug(names, s1, a, b);
    TwoSteps(Empty, CreateOp(a, "x"), CreateOp(b, a), names);
  }

  lemma StepThenRun(s: State, op: Op, ops: seq<Op>, names: Naming)
    requires Possible(s, op) && ValidRun(Step(s, op, names), ops, names)
    ensures ValidRun(s, [op] + ops, names)
    ensures Run(s, [op] + ops, names) == Run(Step(s, op, names), ops, names)
  {
    assert ([op] + ops)[0] == op && ([op] + ops)[1..] == ops;
  }

  lemma NoSteps(s: State, names: Naming)
    ensures ValidRun(s, [], names) && Run(s, [], names) == s
  {
  }

  lemma TwoSteps(s: State, first: Op, second: Op, names: Naming)
    requires Possible(s, first) && Possible(Step(s, first, names), second)
    ensures ValidRun(s, [first, second], names)
    ensures Run(s, [first, second], names) == Step(Step(s, first, names), second, names)
  {
    var s1 := Step(s, first, names);
    NoSteps(Step(s1, second, names), names);
    StepThenRun(s1, second, [], names);
    assert [second] + [] == [second];
    StepThenRun(s, first, [second], names);
    assert [first] + [second] == [first, second];
  }

  lemma XIsSlug(names: Naming)
    requires names.Valid()
    ensures names.IsSlug("x")
  {
    assert IsAsciiLower('x');
  }

  /** Current slugs are unique in every reachable state. */
  lemma CurrentSlugsUnique(names: Naming, s: State, a: EntityId, b: EntityId)
    requires Inv(names, s) && a in s.entities && b in s.entities && s.entities[a].slug == s.entities[b].slug
    ensures a == b
  {
  }

  // ---- a slug handed back ----

  /** Saving an entity whose slug carries a suffix, under the same name, may hand it its own slug
      back, and records that slug in the history; saving it once more then moves it to another. */
  lemma OwnSlugHandedBackOnce(names: Naming, s: State, id: EntityId, name: string)
    requires Inv(names, s) && id in s.entities && Regenerates(s, id, Some(name), names)
    requires Rename(s, id, Some(name), names).entities[id].slug == s.entities[id].slug
    ensures var s1 := Rename(s, id, Some(name), names);
      var s2 := Rename(s1, id, Some(name), names);
      s2.entities[id].slug != s1.entities[id].slug
  {
  }

  lemma SecondCandidate(names: Naming, taken: set<string>)
    requires names.Valid() && "x" in taken && "x-2" !in taken
    ensures names.Plain("x") == "x" && UniqueSlug("x", taken) == "x-2"
  {
    XIsSlug(names);
    SlugifyFixesSlugs(names.letters, "x", names.fallback);
    TruncateClean(names.letters, "x", MAX_SLUG_LENGTH);
    assert Decimal(2) == "2" && |"-" + Decimal(2)| == 2;
    TruncateClean(names.letters, "x", 118);
    assert AppendSlugSuffix("x", 2) == "x-2";
    assert FirstFree("x", taken, 2);
    UniqueSlugIs("x", taken, 2);
  }

  /** It happens: the second row named "x" is called "x-2" and, saved again under the name "x",
      is handed "x-2" back. */
  lemma HandedBack(names: Naming, a: EntityId, b: EntityId)
    requires names.Valid() && IsUuid(a) && IsUuid(b) && a != b
    ensures var ops := [CreateOp(a, "x"), CreateOp(b, "x")];
      && ValidRun(Empty, ops, names)
      && (var s := Run(Empty, ops, names);
          && b in s.entities && s.entities[b].slug == "x-2" && Regenerates(s, b, Some("x"), names)
          && Rename(s, b, Some("x"), names).entities[b].slug == "x-2")
  {
    FirstRow(names, a);
    var s1 := Create(Empty, a, "x", names);
    CreatePossible(s1, b, "x");
    TwoSteps(Empty, CreateOp(a, "x"), CreateOp(b, "x"), names);
    SecondRow(names, s1, b);
  }

  lemma SecondRow(names: Naming, s: State, b: EntityId)
    requires names.Valid() && b !in s.ids && b !in s.entities && Taken(s, None) == {"x"}
    ensures var s' := Create(s, b, "x", names);
      && s'.entities[b].slug == "x-2" && Regenerates(s', b, Some("x"), names)
      && Rename(s', b, Some("x"), names).entities[b].slug == "x-2"
  {
    SecondCandidate(names, {"x"});
    TakenByOthers(s, b, "x-2");
    assert NextSlug(Insert(s, b, "x-2"), b, "x", names) == "x-2";
  }

  lemma TakenByOthers(s: State, b: EntityId, slug: string)
    requires b !in s.entities
    ensures Taken(Insert(s, b, slug), Some(b)) == Taken(s, None)
  {
    var s' := Insert(s, b, slug);
    forall id | id in s.entities ensures id in s'.entities && s'.entities[id] == s.entities[id] { }
  }

  // ---- the registry itself ----

  class Registry {
    const names: Naming
    var entities: map<EntityId, Entity>
    var history: map<string, EntityId>
    ghost var ids: set<EntityId>
    ghost var owners: map<string, EntityId>

    constructor (names: Naming)
      requires names.Valid()
      ensures Valid() && Contents() == Empty && this.names == names
    {
      this.names := names;
      entities, history, ids, owners := map[], map[], {}, map[];
    }

    ghost function Contents(): State
      reads this
    {
      State(entities, history, ids, owners)
    }

    ghost predicate Valid()
      reads this
    {
      Inv(names, Contents()) && names.Valid()
    }

    /** The search loop: it stops after at most |taken| + 2 candidates. */
    method GenerateUniqueSlug(name: string, exclude: Option<EntityId>) returns (slug: string)
      requires names.Valid() && |Taken(Contents(), exclude)| + 2 < U32_LIMIT
      ensures slug == UniqueSlug(names.Plain(name), Taken(Contents(), exclude))
    {
      var baseSlug := ComputeSlugify(names.letters, name, names.fallback);
      ghost var taken := Taken(Contents(), exclude);
      var suffix := 1;
      while true
        invariant 1 <= suffix <= |taken| + 2 < U32_LIMIT && AllTaken(baseSlug, taken, suffix)
        decreases |taken| + 2 - suffix
      {
        var candidate := AppendSlugSuffix(baseSlug, suffix);
        var existsInEntities := exists id :: id in entities && entities[id].slug == candidate && Some(id) != exclude;
        if !existsInEntities {
          var existsInHistory := candidate in history;
          if !existsInHistory {
            assert FirstFree(baseSlug, taken, suffix);
            UniqueSlugIs(baseSlug, taken, suffix);
            return candidate;
          }
        }
        assert candidate in taken;
        SearchBound(baseSlug, taken, suffix + 1);
        suffix := suffix + 1;
      }
    }

    method CreateEntity(id: EntityId, name: string)
      requires Valid() && id !in ids && |Taken(Contents(), None)| + 3 < U32_LIMIT
      modifies this
      ensures Valid() && Contents() == Create(old(Contents()), id, name, names)
    {
      CreateKeepsInv(Contents(), id, name, names);
      var slug := GenerateUniqueSlug(name, None);
      InsertRow(id, slug);
    }

    method InsertRow(id: EntityId, slug: string)
      modifies this`entities, this`ids, this`owners
      ensures Contents() == Insert(old(Contents()), id, slug)
    {
      entities := entities[id := Entity(slug, true)];
      ids, owners := ids + {id}, owners[slug := id];
    }

    /** The update of the row, and of the history with ON CONFLICT DO NOTHING. */
    method StoreSlug(id: EntityId, next: string)
      requires id in entities
      modifies this`entities, this`history, this`owners
      ensures Contents() == Move(old(Contents()), id, next)
    {
      var existing := entities[id];
      entities := entities[id := existing.(slug := next)];
      if existing.slug !in history {
        history := history[existing.slug := id];
      }
      owners := owners[next := id];
    }

    /** The name as normalised by the caller: None when a product update leaves it out. */
    method UpdateName(id: EntityId, name: Option<string>) returns (found: bool)
      requires Valid() && |Taken(Contents(), None)| + 3 < U32_LIMIT
      modifies this
      ensures Valid() && Contents() == Rename(old(Contents()), id, name, names)
      ensures found <==> id in old(entities)
    {
      found := id in entities;
      if !found || name.None? {
        return;
      }
      RenameKeepsInv(Contents(), id, name, names);
      var plain := ComputeSlugify(names.letters, name.value, names.fallback);
      if plain != entities[id].slug {
        MoveToFreeSlug(id, name.value);
      }
    }

    method MoveToFreeSlug(id: EntityId, name: string)
      requires names.Valid() && id in entities && |Taken(Contents(), None)| + 3 < U32_LIMIT
      modifies this`entities, this`history, this`owners
      ensures Contents() == Move(old(Contents()), id, NextSlug(old(Contents()), id, name, names))
    {
      TakenSizes(Contents(), id);
      var next := GenerateUniqueSlug(name, Some(id));
      assert next == NextSlug(Contents(), id, name, names);
      StoreSlug(id, next);
    }

    /** Refused while products are assigned to the category. */
    method DeleteCategory(id: EntityId, assignedProducts: nat) returns (r: Deletion)
      requires Valid()
      modifies this
      ensures Valid()
      ensures r == if assignedProducts > 0 then InUse else if id in old(entities) then Deleted else NotFound
      ensures Contents() == if r == Deleted then Remove(old(Contents()), id) else old(Contents())
    {
      if assignedProducts > 0 {
        return InUse;
      }
      if id !in entities {
        RemoveAbsent(Contents(), id);
        DeleteRow(id);
        return NotFound;
      }
      RemoveKeepsOwned(Contents(), id);
      DeleteRow(id);
      return Deleted;
    }

    /** DELETE FROM categories; the history rows go with it. */
    method DeleteRow(id: EntityId)
      modifies this`entities, this`history, this`owners
      ensures Contents() == Remove(old(Contents()), id)
    {
      entities := entities - {id};
      history := map slug | slug in history && history[slug] != id :: history[slug];
      owners := map slug | slug in owners && owners[slug] != id :: owners[slug];
    }

    method Resolve(identifier: string) returns (r: Option<EntityId>)
      requires Valid()
      ensures r == Lookup(names, Contents(), identifier)
    {
      var parsed := ParseUuid(identifier);
      if parsed.Some? && parsed.value in entities && entities[parsed.value].active {
        return parsed;
      }
      var slug := NormalizeSlugLookup(names.letters, identifier);
      if slug.None? {
        return None;
      }
      r := FetchBySlug(slug.value);
    }

    /** The active row with this current slug, or else the active row its history entry points to. */
    method FetchBySlug(slug: string) returns (r: Option<EntityId>)
      requires Valid()
      ensures r == BySlug(Contents(), slug)
    {
      if id :| id in entities && entities[id].slug == slug && entities[id].active {
        assert HasSlug(Contents(), id, slug);
        forall x | HasSlug(Contents(), x, slug) ensures x == id {
          CurrentSlugsUnique(names, Contents(), x, id);
        }
        return Some(id);
      }
      assert forall x :: !HasSlug(Contents(), x, slug);
      if slug in history && history[slug] in entities && entities[history[slug]].active {
        return Some(history[slug]);
      }
      return None;
    }
  }
}
