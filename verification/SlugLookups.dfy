// Which texts find which rows: identifiers as a client may spell them.
module SlugLookups {
  import opened Common
  import opened Slugs
  import opened Uuids
  import opened SlugRegistry

  ghost predicate All(s: string, f: char -> bool) {
    forall i :: 0 <= i < |s| ==> f(s[i])
  }

  ghost predicate Spelling(u: Classes, text: string, slug: string, a: string, b: string, core: string, c: string, d: string) {
    && text == a + (b + core + c) + d
    && All(a, u.space) && All(b, IsSlash) && All(c, IsSlash) && All(d, u.space)
    && u.lowerText(core) == slug
  }

  /** The text is the slug up to letter case, with any slashes around it and any blanks around those. */
  ghost predicate Spells(u: Classes, text: string, slug: string) {
    exists a, b, core, c, d :: Spelling(u, text, slug, a, b, core, c, d)
  }

  // ---- trimming ----

  lemma {:induction false} TrimStartExact(pre: string, mid: string, f: char -> bool)
    requires All(pre, f) && (mid == "" || !f(mid[0]))
    ensures TrimStart(pre + mid, f) == mid
  {
    if pre != "" {
      assert (pre + mid)[1..] == pre[1..] + mid;
      TrimStartExact(pre[1..], mid, f);
    } else {
      assert pre + mid == mid;
    }
  }

  lemma {:induction false} TrimEndExact(mid: string, post: string, f: char -> bool)
    requires All(post, f) && (mid == "" || !f(mid[|mid| - 1]))
    ensures TrimEnd(mid + post, f) == mid
  {
    if post != "" {
      var t := mid + post;
      assert t[..|t| - 1] == mid + post[..|post| - 1];
      TrimEndExact(mid, post[..|post| - 1], f);
    } else {
      assert mid + post == mid;
    }
  }

  /** Trimming takes off exactly what is around a text with other characters at its ends. */
  lemma TrimExact(pre: string, mid: string, post: string, f: char -> bool)
    requires All(pre, f) && All(post, f) && mid != "" && Edged(mid, f)
    ensures TrimMatches(pre + mid + post, f) == mid
  {
    assert pre + mid + post == pre + (mid + post);
    TrimStartExact(pre, mid + post, f);
    TrimEndExact(mid, post, f);
  }

  lemma {:induction false} TrimStartParts(s: string, f: char -> bool) returns (pre: string)
    ensures s == pre + TrimStart(s, f) && All(pre, f)
  {
    if s != "" && f(s[0]) {
      var rest := TrimStartParts(s[1..], f);
      pre := [s[0]] + rest;
    } else {
      pre := "";
    }
  }

  lemma {:induction false} TrimEndParts(s: string, f: char -> bool) returns (post: string)
    ensures s == TrimEnd(s, f) + post && All(post, f)
  {
    if s != "" && f(s[|s| - 1]) {
      var rest := TrimEndParts(s[..|s| - 1], f);
      post := rest + [s[|s| - 1]];
    } else {
      post := "";
    }
  }

  lemma TrimParts(s: string, f: char -> bool) returns (pre: string, post: string)
    ensures s == pre + TrimMatches(s, f) + post && All(pre, f) && All(post, f)
  {
    pre := TrimStartParts(s, f);
    post := TrimEndParts(TrimStart(s, f), f);
  }

  // ---- normalisation ----

  lemma SlugEnds(u: Unicode, slug: string)
    requires Clean(u, slug)
    ensures !IsOuter(u, slug[0]) && !IsOuter(u, slug[|slug| - 1])
  {
    assert SlugChar(u, slug[0]) && SlugChar(u, slug[|slug| - 1]);
  }

  lemma CoreEnds(u: Unicode, core: string, slug: string)
    requires Clean(u, slug) && u.lowerText(core) == slug
    ensures core != "" && !IsOuter(u, core[0]) && !IsOuter(u, core[|core| - 1])
  {
    SlugEnds(u, slug);
    assert u.lowerText("") == "";
  }

  /** A spelling of a slug is normalised to the slug. */
  lemma SpellingNormalized(u: Unicode, text: string, slug: string)
    requires Clean(u, slug) && Spells(u, text, slug)
    ensures NormalizeSlugLookup(u, text) == Some(slug)
  {
    var a, b, core, c, d :| Spelling(u, text, slug, a, b, core, c, d);
    CoreEnds(u, core, slug);
    CoreNormalized(u, slug, a, b, core, c, d);
  }

  lemma CoreNormalized(u: Classes, slug: string, a: string, b: string, core: string, c: string, d: string)
    requires All(a, u.space) && All(b, IsSlash) && All(c, IsSlash) && All(d, u.space) && u.lowerText(core) == slug
    requires core != "" && !IsOuter(u, core[0]) && !IsOuter(u, core[|core| - 1]) && !u.space('/')
    ensures NormalizeSlugLookup(u, a + (b + core + c) + d) == Some(slug)
  {
    var mid := b + core + c;
    assert mid[0] == if b == "" then core[0] else b[0];
    assert mid[|mid| - 1] == if c == "" then core[|core| - 1] else c[|c| - 1];
    TrimExact(a, mid, d, u.space);
    TrimExact(b, core, c, IsSlash);
  }

  /** What is normalised to a text spells it. */
  lemma NormalizedSpells(u: Classes, text: string)
    ensures NormalizeSlugLookup(u, text).Some? ==> Spells(u, text, NormalizeSlugLookup(u, text).value)
  {
    var a, d := TrimParts(text, u.space);
    var b, c := TrimParts(TrimMatches(text, u.space), IsSlash);
    var core := TrimMatches(TrimMatches(text, u.space), IsSlash);
    if core != "" {
      assert Spelling(u, text, u.lowerText(core), a, b, core, c, d);
    }
  }

  // ---- lookups ----

  /** The text is that of an active row's id. */
  ghost predicate NamesById(s: State, text: string, x: EntityId) {
    ParseUuid(text) == Some(x) && IsActive(s, x)
  }

  ghost predicate NamesBySlug(u: Classes, s: State, text: string, x: EntityId) {
    IsActive(s, x) && exists slug :: slug in s.owners && s.owners[slug] == x && Spells(u, text, slug)
  }

  /** What a text finds, for every text: the active row whose id it is, and if there is none, the
      active row that a slug it spells was ever assigned to; nothing else. */
  lemma LookupIff(names: Naming, s: State, text: string, x: EntityId)
    requires names.Valid() && Inv(names, s)
    ensures Lookup(names, s, text) == Some(x) <==>
      NamesById(s, text, x) || ((forall y :: !NamesById(s, text, y)) && NamesBySlug(names.letters, s, text, x))
  {
    var parsed := ParseUuid(text);
    if parsed.Some? && IsActive(s, parsed.value) {
      assert NamesById(s, text, parsed.value);
    } else {
      BySpelling(names, s, text, x);
    }
  }

  lemma BySpelling(names: Naming, s: State, text: string, x: EntityId)
    requires names.Valid() && Inv(names, s)
    ensures var slug := NormalizeSlugLookup(names.letters, text);
      (slug.Some? && BySlug(s, slug.value) == Some(x)) <==> NamesBySlug(names.letters, s, text, x)
  {
    var u, found := names.letters, NormalizeSlugLookup(names.letters, text);
    if NamesBySlug(u, s, text, x) {
      var slug :| slug in s.owners && s.owners[slug] == x && Spells(u, text, slug);
      SpellingNormalized(u, text, slug);
      BySlugFindsOwner(s, slug);
    }
    if found.Some? && BySlug(s, found.value) == Some(x) {
      BySlugIsOwned(s, found.value);
      BySlugFindsOwner(s, found.value);
      NormalizedSpells(u, text);
    }
  }

  lemma BySlugIsOwned(s: State, slug: string)
    requires Owned(s) && BySlug(s, slug).Some?
    ensures slug in s.owners
  {
  }

  /** Letter case, outer blanks and slashes do not matter: every spelling of a slug ever assigned
      finds its owner, if that is active and the text is not another active row's id. */
  lemma SpellingFindsOwner(names: Naming, s: State, slug: string, text: string)
    requires names.Valid() && Inv(names, s) && slug in s.owners && Spells(names.letters, text, slug)
    ensures Lookup(names, s, text) == Some(s.owners[slug]) <==>
      IsActive(s, s.owners[slug]) && !Shadowed(s, text, s.owners[slug])
  {
    SpellingNormalized(names.letters, text, slug);
    BySlugFindsOwner(s, slug);
  }

  /** For an ASCII slug, capitals anywhere in it and slashes and blanks around it make a spelling. */
  lemma AsciiSpelling(u: Unicode, a: string, b: string, core: string, c: string, d: string)
    requires All(a, u.space) && All(b, IsSlash) && All(c, IsSlash) && All(d, u.space) && IsAsciiText(core)
    ensures Spells(u, a + (b + core + c) + d, AsciiLowered(core))
  {
    assert Spelling(u, a + (b + core + c) + d, AsciiLowered(core), a, b, core, c, d);
  }

  lemma RibeyeSpelled(u: Unicode)
    ensures Spells(u, "/Ribeye-Steak/", "ribeye-steak")
  {
    RibeyeText();
    AsciiSpelling(u, "", "/", "Ribeye-Steak", "/", "");
  }

  lemma RibeyeText()
    ensures "" + ("/" + "Ribeye-Steak" + "/") + "" == "/Ribeye-Steak/"
    ensures IsAsciiText("Ribeye-Steak") && AsciiLowered("Ribeye-Steak") == "ribeye-steak"
    ensures All("", IsSlash) && All("/", IsSlash)
  {
  }
}
