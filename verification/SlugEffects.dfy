// What a slug says of its name, and what each operation on slugs changes.
module SlugEffects {
  import opened Common
  import opened Slugs
  import opened SlugRegistry

  // ---- the words of a text ----

  /** A run of letters and digits is one word. */
  lemma {:induction false} RunIsWord(u: Classes, s: string)
    requires s != "" && forall i :: 0 <= i < |s| ==> u.alphanumeric(s[i])
    ensures Words(u, s) == [s]
  {
    var n := |s| - 1;
    if n > 0 {
      RunIsWord(u, s[..n]);
      RunGrows(u, s[..n], s[n]);
      assert s == s[..n] + [s[n]];
    } else {
      assert s == [s[0]] && Words(u, s[..0]) == [];
    }
  }

  lemma RunGrows(u: Classes, s: string, c: char)
    requires s != "" && u.alphanumeric(s[|s| - 1]) && u.alphanumeric(c) && Words(u, s) == [s]
    ensures Words(u, s + [c]) == [s + [c]]
  {
    var t := s + [c];
    assert t[..|t| - 1] == s && t[|t| - 2] == s[|s| - 1];
    assert [s][..0] == [];
  }

  /** Any other character ends a word; between the words there is nothing else. */
  lemma {:induction false} SeparatorSplits(u: Classes, s: string, c: char, t: string)
    requires !u.alphanumeric(c)
    ensures Words(u, s + [c] + t) == Words(u, s) + Words(u, t)
  {
    if t == "" {
      assert s + [c] + t == s + [c];
      WordsSeparator(u, s, c);
    } else {
      var n := |t| - 1;
      SeparatorSplits(u, s, c, t[..n]);
      SplitExtends(u, s, c, t[..n], t[n]);
      assert t == t[..n] + [t[n]] && s + [c] + t == (s + [c] + t[..n]) + [t[n]];
    }
  }

  lemma SplitExtends(u: Classes, s: string, c: char, t: string, x: char)
    requires !u.alphanumeric(c) && Words(u, s + [c] + t) == Words(u, s) + Words(u, t)
    ensures Words(u, (s + [c] + t) + [x]) == Words(u, s) + Words(u, t + [x])
  {
    var full := s + [c] + t;
    assert (full + [x])[..|full|] == full && (t + [x])[..|t|] == t;
    assert full[|full| - 1] == if t == "" then c else t[|t| - 1];
    if u.alphanumeric(x) {
      if t != "" && u.alphanumeric(t[|t| - 1]) {
        assert (full + [x])[|full| - 1] == t[|t| - 1] == (t + [x])[|t| - 1];
        LastWordGrows(Words(u, s), Words(u, t), x);
      } else {
        assert Words(u, full + [x]) == Words(u, full) + [[x]];
      }
    }
  }

  lemma LastWordGrows(a: seq<string>, b: seq<string>, x: char)
    requires b != []
    ensures var ws := a + b;
      ws[..|ws| - 1] + [ws[|ws| - 1] + [x]] == a + (b[..|b| - 1] + [b[|b| - 1] + [x]])
  {
  }

  lemma {:induction false} LoweredConcat(u: Classes, s: string, t: string)
    ensures Lowered(u, s + t) == Lowered(u, s) + Lowered(u, t)
  {
    if t == "" {
      assert s + t == s;
    } else {
      var n := |t| - 1;
      LoweredConcat(u, s, t[..n]);
      assert (s + t)[..|s + t| - 1] == s + t[..n];
    }
  }

  lemma {:induction false} BlanksHaveNoWords(u: Unicode, s: string)
    requires forall i :: 0 <= i < |s| ==> u.space(s[i])
    ensures Lowered(u, s) == s && Words(u, s) == []
  {
    if s != "" {
      BlanksHaveNoWords(u, s[..|s| - 1]);
    }
  }

  lemma {:induction false} TrimStartWords(u: Unicode, s: string)
    ensures Words(u, Lowered(u, TrimStart(s, u.space))) == Words(u, Lowered(u, s))
  {
    if s != "" && u.space(s[0]) {
      var rest := s[1..];
      TrimStartWords(u, rest);
      assert s == [s[0]] + rest;
      LoweredConcat(u, [s[0]], rest);
      assert Lowered(u, [s[0]]) == [s[0]] by { assert [s[0]][..0] == ""; }
      SeparatorSplits(u, "", s[0], Lowered(u, rest));
      assert "" + [s[0]] + Lowered(u, rest) == [s[0]] + Lowered(u, rest);
    }
  }

  lemma {:induction false} TrimEndWords(u: Unicode, s: string)
    ensures Words(u, Lowered(u, TrimEnd(s, u.space))) == Words(u, Lowered(u, s))
  {
    if s != "" && u.space(s[|s| - 1]) {
      var n := |s| - 1;
      TrimEndWords(u, s[..n]);
      WordsSeparator(u, Lowered(u, s[..n]), s[n]);
    }
  }

  /** A short enough name becomes its lower-cased words joined by hyphens, blanks around it or not;
      a name without a letter or digit becomes the fallback. */
  lemma SlugifyText(u: Unicode, input: string, fallback: string)
    requires NormalForm(u, fallback)
    ensures var text := Join(Words(u, Lowered(u, input)));
      && (text == "" ==> Slugify(u, input, fallback) == fallback)
      && (text != "" && |text| <= 120 ==> Slugify(u, input, fallback) == text)
      && (|text| > 120 ==>
            Slugify(u, input, fallback) == text[..if text[119] == '-' then 119 else 120])
  {
    TrimStartWords(u, input);
    TrimEndWords(u, TrimStart(input, u.space));
    var text := JoinedWords(u, input);
    TruncateClean(u, fallback, MAX_SLUG_LENGTH);
    if text != "" {
      JoinedClean(u, input);
      TruncateClean(u, text, MAX_SLUG_LENGTH);
    }
  }

  lemma JoinedClean(u: Unicode, input: string)
    requires JoinedWords(u, input) != ""
    ensures Clean(u, JoinedWords(u, input))
  {
    var text := Lowered(u, TrimMatches(input, u.space));
    LoweredFixed(u, TrimMatches(input, u.space));
    WordsLower(u, text);
    JoinClean(u, Words(u, text));
  }

  /** A cut is never empty: what has nothing but hyphens becomes "item". */
  lemma NeverEmpty(value: string, max: nat)
    ensures TruncateSlug(value, max) != ""
    ensures (forall i :: 0 <= i < |value| && i < max ==> value[i] == '-') ==> TruncateSlug(value, max) == "item"
  {
    var cut := if |value| <= max then value else value[..max];
    if forall i :: 0 <= i < |cut| ==> cut[i] == '-' {
      HyphensTrimmed(cut);
    }
  }

  lemma {:induction false} HyphensTrimmed(s: string)
    requires forall i :: 0 <= i < |s| ==> s[i] == '-'
    ensures TrimStart(s, IsHyphen) == ""
  {
    if s != "" {
      HyphensTrimmed(s[1..]);
    }
  }

  // ---- suffixes ----

  function ReadDecimal(s: string): int {
    if s == "" then 0 else 10 * ReadDecimal(s[..|s| - 1]) + (s[|s| - 1] as int - '0' as int)
  }

  /** The decimal text of a number reads as that number, without leading zeros. */
  lemma {:induction false} DecimalReads(n: nat)
    ensures ReadDecimal(Decimal(n)) == n
    ensures Decimal(n) != "" && (n > 0 ==> Decimal(n)[0] != '0')
  {
    if n >= 10 {
      DecimalReads(n / 10);
      assert Decimal(n)[..|Decimal(n)| - 1] == Decimal(n / 10);
    } else {
      assert Decimal(n)[..0] == "";
    }
  }

  /** A candidate is the base, cut to leave room and without a hyphen at the cut, a hyphen, and the
      suffix in decimal; suffix 1 adds nothing. */
  lemma CandidateShape(u: Unicode, base: string, suffix: nat)
    requires NormalForm(u, base) && suffix < U32_LIMIT
    ensures var text := Decimal(suffix);
      && |text| <= 10
      && AppendSlugSuffix(base, suffix) ==
         if suffix <= 1 then base
         else if |base| + 1 + |text| <= 120 then base + ("-" + text)
         else base[..if base[118 - |text|] == '-' then 118 - |text| else 119 - |text|] + ("-" + text)
  {
    TenDigits(suffix);
    if suffix <= 1 {
      TruncateClean(u, base, MAX_SLUG_LENGTH);
    } else {
      TruncateClean(u, base, MAX_SLUG_LENGTH - 1 - |Decimal(suffix)|);
    }
  }

  // ---- operations ----

  ghost predicate CurrentOf(s: State, slug: string, except: Option<EntityId>) {
    exists id :: id in s.entities && Some(id) != except && s.entities[id].slug == slug
  }

  /** The first candidate that no other row has now and nobody had before. */
  ghost predicate FirstFreeCandidate(s: State, base: string, except: Option<EntityId>, slug: string, n: nat) {
    && n >= 1 && slug == AppendSlugSuffix(base, n)
    && !CurrentOf(s, slug, except) && slug !in s.history
    && forall k: nat :: 1 <= k < n ==> TakenCandidate(s, AppendSlugSuffix(base, k), except)
  }

  ghost predicate TakenCandidate(s: State, slug: string, except: Option<EntityId>) {
    CurrentOf(s, slug, except) || slug in s.history
  }

  lemma TakenIs(s: State, except: Option<EntityId>, slug: string)
    ensures slug in Taken(s, except) <==> TakenCandidate(s, slug, except)
  {
  }

  lemma UniqueSlugIsFirst(s: State, base: string, except: Option<EntityId>)
    ensures exists n: nat :: FirstFreeCandidate(s, base, except, UniqueSlug(base, Taken(s, except)), n)
  {
    var taken := Taken(s, except);
    var n := FreeSuffix(base, taken, 1);
    TakenIs(s, except, AppendSlugSuffix(base, n));
    forall k: nat | 1 <= k < n ensures TakenCandidate(s, AppendSlugSuffix(base, k), except) {
      TakenIs(s, except, AppendSlugSuffix(base, k));
    }
    assert FirstFreeCandidate(s, base, except, UniqueSlug(base, taken), n);
  }

  /** Creating a row gives it the first free candidate for its name, and changes nothing else. */
  lemma CreateEffect(s: State, id: EntityId, name: string, names: Naming)
    requires id !in s.entities
    ensures var s' := Create(s, id, name, names);
      && s'.entities.Keys == s.entities.Keys + {id} && s'.entities[id].active
      && (exists n: nat :: FirstFreeCandidate(s, names.Plain(name), None, s'.entities[id].slug, n))
      && (forall x :: x in s.entities ==> s'.entities[x] == s.entities[x])
      && s'.history == s.history
  {
    UniqueSlugIsFirst(s, names.Plain(name), None);
  }

  /** Renaming a row moves it to the first candidate free for it if its plain slug is not the one it
      has, and records the old slug unless it is recorded; otherwise nothing changes. */
  lemma RenameEffect(s: State, id: EntityId, name: Option<string>, names: Naming)
    ensures var s' := Rename(s, id, name, names);
      if id in s.entities && name.Some? && names.Plain(name.value) != s.entities[id].slug then
        && s'.entities.Keys == s.entities.Keys
        && (exists n: nat :: FirstFreeCandidate(s, names.Plain(name.value), Some(id), s'.entities[id].slug, n))
        && s'.entities[id].active == s.entities[id].active
        && (forall x :: x in s.entities && x != id ==> s'.entities[x] == s.entities[x])
        && s'.history.Keys == s.history.Keys + {s.entities[id].slug}
        && (forall slug :: slug in s.history ==> s'.history[slug] == s.history[slug])
        && (s.entities[id].slug !in s.history ==> s'.history[s.entities[id].slug] == id)
      else s' == s
  {
    if id in s.entities && name.Some? {
      UniqueSlugIsFirst(s, names.Plain(name.value), Some(id));
      MoveEffect(s, id, NextSlug(s, id, name.value, names));
    }
  }

  lemma MoveEffect(s: State, id: EntityId, next: string)
    requires id in s.entities
    ensures var s' := Move(s, id, next);
      && s'.entities.Keys == s.entities.Keys
      && s'.entities[id] == Entity(next, s.entities[id].active)
      && (forall x :: x in s.entities && x != id ==> s'.entities[x] == s.entities[x])
      && s'.history.Keys == s.history.Keys + {s.entities[id].slug}
      && (forall slug :: slug in s.history ==> s'.history[slug] == s.history[slug])
      && (s.entities[id].slug !in s.history ==> s'.history[s.entities[id].slug] == id)
  {
  }

  /** Deleting a row deletes it and the history that points to it; (de)activating changes its flag. */
  lemma RemoveEffect(s: State, id: EntityId, active: bool)
    ensures var s' := Remove(s, id);
      && s'.entities == s.entities - {id}
      && (forall slug :: slug in s'.history <==> slug in s.history && s.history[slug] != id)
      && (forall slug :: slug in s'.history ==> s'.history[slug] == s.history[slug])
    ensures var s' := SetActive(s, id, active);
      && s'.history == s.history && s'.entities.Keys == s.entities.Keys
      && (forall x :: x in s.entities ==>
            s'.entities[x].slug == s.entities[x].slug
            && s'.entities[x].active == if x == id then active else s.entities[x].active)
  {
  }
}
