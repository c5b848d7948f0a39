// src/shared/slug.rs: slugs from names, over any character classes that behave like Unicode's.
module Slugs {
  import opened Common

  const MAX_SLUG_LENGTH: nat := 120

  /** How characters are read: `char::is_alphanumeric`, `char::is_whitespace`, `char::to_lowercase`
      (which may give several characters), and `str::to_lowercase` (which looks at neighbours). */
  datatype Classes = Classes(
    alphanumeric: char -> bool,
    space: char -> bool,
    lower: char -> string,
    lowerText: string -> string
  )

  predicate IsDigit(c: char) { '0' <= c <= '9' }
  predicate IsAsciiLower(c: char) { 'a' <= c <= 'z' }
  predicate IsHyphen(c: char) { c == '-' }
  predicate IsSlash(c: char) { c == '/' }

  predicate IsAsciiUpper(c: char) { 'A' <= c <= 'Z' }

  function AsciiLower(c: char): char {
    if IsAsciiUpper(c) then (c as int + 32) as char else c
  }

  function AsciiLowered(s: string): (t: string)
    ensures |t| == |s| && forall i :: 0 <= i < |s| ==> t[i] == AsciiLower(s[i])
  {
    seq(|s|, i requires 0 <= i < |s| => AsciiLower(s[i]))
  }

  ghost predicate IsAsciiText(s: string) {
    forall i :: 0 <= i < |s| ==> s[i] < 128 as char
  }

  /** Dropped by `normalize_slug_lookup` at the ends of an identifier. */
  predicate IsOuter(u: Classes, c: char) { u.space(c) || IsSlash(c) }

  /** ASCII letters and digits are as expected, separators are not alphanumeric, and lower-casing is
      idempotent. */
  ghost predicate LawfulChars(u: Classes) {
    && (forall c :: IsAsciiLower(c) || IsDigit(c) ==> u.alphanumeric(c) && u.lower(c) == [c])
    && (forall c :: IsAsciiUpper(c) ==> u.alphanumeric(c) && u.lower(c) == [AsciiLower(c)])
    && !u.alphanumeric('-') && !u.space('-') && u.lower('-') == "-" && !u.alphanumeric('/') && !u.space('/')
    && (forall c :: u.space(c) ==> !u.alphanumeric(c) && u.lower(c) == [c])
    && (forall c, d :: d in u.lower(c) ==> u.lower(d) == [d])
  }

  /** Lower-casing a text is the identity where every character is lower-case, is that of ASCII on
      ASCII, and keeps blanks and slashes at the ends. */
  ghost predicate LawfulTexts(u: Classes) {
    && (forall s {:trigger u.lowerText(s)} :: (forall i :: 0 <= i < |s| ==> u.lower(s[i]) == [s[i]]) ==> u.lowerText(s) == s)
    && (forall s {:trigger u.lowerText(s)} :: IsAsciiText(s) ==> u.lowerText(s) == AsciiLowered(s))
    && (forall s {:trigger u.lowerText(s)} :: s != "" && IsOuter(u, s[0]) ==> u.lowerText(s) != "" && u.lowerText(s)[0] == s[0])
    && (forall s {:trigger u.lowerText(s)} :: s != "" && IsOuter(u, s[|s| - 1]) ==>
          u.lowerText(s) != "" && u.lowerText(s)[|u.lowerText(s)| - 1] == s[|s| - 1])
  }

  /** What is used of the Unicode tables. */
  ghost predicate Lawful(u: Classes) {
    LawfulChars(u) && LawfulTexts(u)
  }

  /** The classes cut down to ASCII are among them. */
  const Ascii: Classes := Classes(
    c => IsAsciiLower(c) || IsDigit(c) || IsAsciiUpper(c),
    c => c == ' ' || '\t' <= c <= '\r',
    c => [AsciiLower(c)],
    s => AsciiLowered(s))

  lemma AsciiIsLawful()
    ensures Lawful(Ascii)
  {
    AsciiChars();
    AsciiTexts();
  }

  lemma AsciiChars()
    ensures LawfulChars(Ascii)
  {
    forall c, d | d in Ascii.lower(c) ensures Ascii.lower(d) == [d] {
      assert d == AsciiLower(c);
    }
  }

  lemma AsciiFixed(s: string)
    requires forall i :: 0 <= i < |s| ==> Ascii.lower(s[i]) == [s[i]]
    ensures AsciiLowered(s) == s
  {
    forall i | 0 <= i < |s| ensures AsciiLower(s[i]) == s[i] {
      assert Ascii.lower(s[i])[0] == AsciiLower(s[i]);
    }
  }

  lemma AsciiEnds(s: string, i: nat)
    requires i < |s| && IsOuter(Ascii, s[i])
    ensures AsciiLowered(s)[i] == s[i]
  {
  }

  lemma AsciiText(s: string)
    ensures Ascii.lowerText(s) == AsciiLowered(s)
  {
  }

  lemma AsciiTexts()
    ensures LawfulTexts(Ascii)
  {
    forall s ensures Ascii.lowerText(s) == AsciiLowered(s) {
      AsciiText(s);
    }
    forall s: string | forall i :: 0 <= i < |s| ==> Ascii.lower(s[i]) == [s[i]] ensures AsciiLowered(s) == s {
      AsciiFixed(s);
    }
    forall s | s != "" && IsOuter(Ascii, s[0]) ensures AsciiLowered(s)[0] == s[0] {
      AsciiEnds(s, 0);
    }
    forall s | s != "" && IsOuter(Ascii, s[|s| - 1]) ensures AsciiLowered(s)[|s| - 1] == s[|s| - 1] {
      AsciiEnds(s, |s| - 1);
    }
  }

  function AsciiWitness(): (u: Classes)
    ensures Lawful(u)
  {
    AsciiIsLawful();
    Ascii
  }

  type Unicode = u: Classes | Lawful(u) witness AsciiWitness()

  function Lowered(u: Classes, s: string): string {
    if s == "" then "" else Lowered(u, s[..|s| - 1]) + u.lower(s[|s| - 1])
  }

  function TrimStart(s: string, f: char -> bool): string {
    if s != "" && f(s[0]) then TrimStart(s[1..], f) else s
  }

  function TrimEnd(s: string, f: char -> bool): string {
    if s != "" && f(s[|s| - 1]) then TrimEnd(s[..|s| - 1], f) else s
  }

  function TrimMatches(s: string, f: char -> bool): string {
    TrimEnd(TrimStart(s, f), f)
  }

  /** The first `max` characters without hyphens at the ends; never empty. */
  function TruncateSlug(value: string, max: nat): string {
    var truncated := if |value| <= max then value else value[..max];
    var trimmed := TrimMatches(truncated, IsHyphen);
    if trimmed == "" then "item" else trimmed
  }

  // ---- what a slug is: the words of the name, joined by single hyphens ----

  /** The maximal runs of alphanumeric characters. */
  function Words(u: Classes, s: string): (ws: seq<string>)
    ensures s != "" && u.alphanumeric(s[|s| - 1]) ==> ws != []
  {
    if s == "" then []
    else
      var n := |s| - 1;
      var before, c := Words(u, s[..n]), s[n];
      if !u.alphanumeric(c) then before
      else if n > 0 && u.alphanumeric(s[n - 1]) then before[..|before| - 1] + [before[|before| - 1] + [c]]
      else before + [[c]]
  }

  function Join(ws: seq<string>): string {
    if ws == [] then ""
    else if |ws| == 1 then ws[0]
    else Join(ws[..|ws| - 1]) + "-" + ws[|ws| - 1]
  }

  function JoinedWords(u: Classes, input: string): string {
    Join(Words(u, Lowered(u, TrimMatches(input, u.space))))
  }

  function Slugify(u: Classes, input: string, fallback: string): string {
    var joined := JoinedWords(u, input);
    TruncateSlug(if joined == "" then fallback else joined, MAX_SLUG_LENGTH)
  }

  // ---- the loop of `slugify` ----

  /** The buffer after a prefix: the words so far, and a hyphen once a separator has followed them. */
  function Buffer(u: Classes, s: string): string {
    Join(Words(u, s)) + if Pending(u, s) then "-" else ""
  }

  predicate Pending(u: Classes, s: string) {
    s != "" && !u.alphanumeric(s[|s| - 1]) && Words(u, s) != []
  }

  /** The loop, pushing onto the buffer. */
  method PushCharacters(u: Classes, text: string) returns (slug: string)
    ensures slug == Buffer(u, text)
  {
    slug := "";
    var previousWasSeparator := false;
    for i := 0 to |text|
      invariant slug == Buffer(u, text[..i])
      invariant previousWasSeparator == Pending(u, text[..i])
    {
      BufferGrows(u, text, i);
      if u.alphanumeric(text[i]) {
        slug := slug + [text[i]];
        previousWasSeparator := false;
      } else if slug != "" && !previousWasSeparator {
        slug := slug + ['-'];
        previousWasSeparator := true;
      }
    }
    assert text[..|text|] == text;
  }

  lemma BufferGrows(u: Classes, text: string, i: nat)
    requires i < |text|
    ensures var before, pending, c := Buffer(u, text[..i]), Pending(u, text[..i]), text[i];
      && Buffer(u, text[..i + 1])
         == (if u.alphanumeric(c) then before + [c] else if before != "" && !pending then before + ['-'] else before)
      && Pending(u, text[..i + 1]) == if u.alphanumeric(c) then false else (before != "" && !pending) || pending
  {
    BufferStep(u, text[..i], text[i]);
    assert text[..i + 1] == text[..i] + [text[i]];
  }

  method ComputeSlugify(u: Unicode, input: string, fallback: string) returns (result: string)
    ensures result == Slugify(u, input, fallback)
  {
    var text := Lowered(u, TrimMatches(input, u.space));
    var slug := PushCharacters(u, text);
    BufferTrimmed(u, text);
    var trimmed := TrimMatches(slug, IsHyphen);
    var base := if trimmed == "" then fallback else trimmed;
    result := TruncateSlug(base, MAX_SLUG_LENGTH);
  }

  lemma JoinGrow(ws: seq<string>, c: char)
    requires ws != []
    ensures Join(ws[..|ws| - 1] + [ws[|ws| - 1] + [c]]) == Join(ws) + [c]
  {
    var n := |ws| - 1;
    var grown := ws[..n] + [ws[n] + [c]];
    assert grown[..n] == ws[..n];
  }

  lemma JoinAppend(ws: seq<string>, w: string)
    ensures Join(ws + [w]) == if ws == [] then w else Join(ws) + "-" + w
  {
  }

  ghost predicate GoodWord(u: Classes, w: string) {
    w != "" && forall i :: 0 <= i < |w| ==> u.alphanumeric(w[i])
  }

  ghost predicate GoodWords(u: Classes, ws: seq<string>) {
    forall i :: 0 <= i < |ws| ==> GoodWord(u, ws[i])
  }

  lemma {:induction false} WordsGood(u: Classes, s: string)
    ensures GoodWords(u, Words(u, s))
  {
    if s != "" {
      WordsGood(u, s[..|s| - 1]);
      var before := Words(u, s[..|s| - 1]);
      if before != [] {
        assert GoodWord(u, before[|before| - 1]);
      }
    }
  }

  lemma {:induction false} JoinNonEmpty(u: Classes, ws: seq<string>)
    requires GoodWords(u, ws)
    ensures Join(ws) == "" <==> ws == []
  {
  }

  lemma WordsLetter(u: Classes, s: string, c: char)
    requires u.alphanumeric(c)
    ensures Buffer(u, s + [c]) == Buffer(u, s) + [c] && !Pending(u, s + [c])
  {
    var t := s + [c];
    assert t[..|t| - 1] == s && t[|t| - 1] == c;
    if s != "" && u.alphanumeric(s[|s| - 1]) {
      assert t[|t| - 2] == s[|s| - 1];
      JoinGrow(Words(u, s), c);
    } else {
      JoinAppend(Words(u, s), [c]);
    }
  }

  lemma WordsSeparator(u: Classes, s: string, c: char)
    requires !u.alphanumeric(c)
    ensures Words(u, s + [c]) == Words(u, s)
    ensures Pending(u, s + [c]) <==> Words(u, s) != []
  {
    var t := s + [c];
    assert t[..|t| - 1] == s && t[|t| - 1] == c;
  }

  lemma BufferStep(u: Classes, s: string, c: char)
    ensures Pending(u, s + [c]) == if u.alphanumeric(c) then false else (Buffer(u, s) != "" && !Pending(u, s)) || Pending(u, s)
    ensures Buffer(u, s + [c])
         == if u.alphanumeric(c) then Buffer(u, s) + [c]
            else if Buffer(u, s) != "" && !Pending(u, s) then Buffer(u, s) + ['-'] else Buffer(u, s)
  {
    WordsGood(u, s);
    JoinNonEmpty(u, Words(u, s));
    if u.alphanumeric(c) {
      WordsLetter(u, s, c);
    } else {
      WordsSeparator(u, s, c);
    }
  }

  // ---- trimming ----

  ghost predicate Edged(s: string, f: char -> bool) {
    s == "" || (!f(s[0]) && !f(s[|s| - 1]))
  }

  lemma TrimEdged(s: string, f: char -> bool)
    requires Edged(s, f)
    ensures TrimMatches(s, f) == s
  {
  }

  lemma TrimOneHyphen(s: string)
    requires s != "" && Edged(s, IsHyphen)
    ensures TrimMatches(s + "-", IsHyphen) == s
  {
    var t := s + "-";
    assert t[0] == s[0] && TrimStart(t, IsHyphen) == t;
    assert t[|t| - 1] == '-' && t[..|t| - 1] == s;
    assert TrimEnd(t, IsHyphen) == TrimEnd(s, IsHyphen) == s;
  }

  lemma {:induction false} JoinEdges(u: Classes, ws: seq<string>)
    requires ws != [] && GoodWords(u, ws)
    ensures var j := Join(ws); j != "" && u.alphanumeric(j[0]) && u.alphanumeric(j[|j| - 1])
  {
    assert GoodWord(u, ws[|ws| - 1]);
    if |ws| > 1 {
      JoinEdges(u, ws[..|ws| - 1]);
    }
  }

  lemma BufferTrimmed(u: Classes, s: string)
    requires !u.alphanumeric('-')
    ensures TrimMatches(Buffer(u, s), IsHyphen) == Join(Words(u, s))
  {
    WordsGood(u, s);
    var j := Join(Words(u, s));
    if Words(u, s) != [] {
      JoinEdges(u, Words(u, s));
      TrimOneHyphen(j);
      assert j + "" == j;
    }
    TrimEdged(j, IsHyphen);
  }

  // ---- the normal form ----

  predicate SlugChar(u: Classes, c: char) { c == '-' || (u.alphanumeric(c) && u.lower(c) == [c]) }

  /** Lower-case alphanumeric with single inner hyphens. */
  ghost predicate Clean(u: Classes, s: string) {
    && s != "" && Edged(s, IsHyphen)
    && (forall i :: 0 <= i < |s| ==> SlugChar(u, s[i]))
    && (forall i :: 0 <= i < |s| - 1 ==> s[i] != '-' || s[i + 1] != '-')
  }

  ghost predicate NormalForm(u: Classes, s: string) {
    Clean(u, s) && |s| <= MAX_SLUG_LENGTH
  }

  ghost predicate LowerWord(u: Classes, w: string) {
    w != "" && forall i :: 0 <= i < |w| ==> w[i] != '-' && SlugChar(u, w[i])
  }

  ghost predicate LowerWords(u: Classes, ws: seq<string>) {
    forall i :: 0 <= i < |ws| ==> LowerWord(u, ws[i])
  }

  /** Lower-casing a lowered text changes nothing any more. */
  lemma {:induction false} LoweredFixed(u: Unicode, s: string)
    ensures forall i :: 0 <= i < |Lowered(u, s)| ==> u.lower(Lowered(u, s)[i]) == [Lowered(u, s)[i]]
  {
    if s != "" {
      LoweredFixed(u, s[..|s| - 1]);
      assert forall d :: d in u.lower(s[|s| - 1]) ==> u.lower(d) == [d];
    }
  }

  lemma {:induction false} LoweredSame(u: Classes, s: string)
    requires forall i :: 0 <= i < |s| ==> u.lower(s[i]) == [s[i]]
    ensures Lowered(u, s) == s
  {
    if s != "" {
      LoweredSame(u, s[..|s| - 1]);
    }
  }

  lemma {:induction false} WordsLower(u: Classes, s: string)
    requires !u.alphanumeric('-') && forall i :: 0 <= i < |s| ==> u.lower(s[i]) == [s[i]]
    ensures LowerWords(u, Words(u, s))
  {
    if s != "" {
      WordsLower(u, s[..|s| - 1]);
      var before := Words(u, s[..|s| - 1]);
      if before != [] {
        assert LowerWord(u, before[|before| - 1]);
      }
    }
  }

  lemma CleanAppend(u: Classes, s: string, w: string)
    requires Clean(u, s) && LowerWord(u, w)
    ensures Clean(u, s + "-" + w)
  {
  }

  lemma {:induction false} JoinClean(u: Classes, ws: seq<string>)
    requires ws != [] && LowerWords(u, ws)
    ensures Clean(u, Join(ws))
  {
    var w := ws[|ws| - 1];
    assert LowerWord(u, w);
    if |ws| > 1 {
      JoinClean(u, ws[..|ws| - 1]);
      CleanAppend(u, Join(ws[..|ws| - 1]), w);
    }
  }

  lemma CutClean(u: Classes, s: string, n: nat)
    requires Clean(u, s) && 0 < n <= |s| && s[n - 1] != '-'
    ensures Clean(u, s[..n]) && TrimMatches(s[..n], IsHyphen) == s[..n]
  {
    TrimEdged(s[..n], IsHyphen);
  }

  /** Cutting a clean string and dropping the hyphen that may be left at the end. */
  lemma TruncateClean(u: Classes, s: string, max: nat)
    requires Clean(u, s) && max > 0
    ensures Clean(u, TruncateSlug(s, max)) && |TruncateSlug(s, max)| <= max
    ensures |s| <= max ==> TruncateSlug(s, max) == s
    ensures |s| > max ==> TruncateSlug(s, max) == s[..if s[max - 1] == '-' then max - 1 else max]
  {
    if |s| <= max {
      TrimEdged(s, IsHyphen);
    } else if s[max - 1] == '-' {
      CutClean(u, s, max - 1);
      assert s[..max] == s[..max - 1] + "-";
      TrimOneHyphen(s[..max - 1]);
    } else {
      CutClean(u, s, max);
    }
  }

  /** Every slug made from a name is in normal form, if the fallback is. */
  lemma SlugifyNormal(u: Unicode, input: string, fallback: string)
    requires NormalForm(u, fallback)
    ensures NormalForm(u, Slugify(u, input, fallback))
  {
    var text := Lowered(u, TrimMatches(input, u.space));
    LoweredFixed(u, TrimMatches(input, u.space));
    WordsLower(u, text);
    WordsGood(u, text);
    JoinNonEmpty(u, Words(u, text));
    if Words(u, text) != [] {
      JoinClean(u, Words(u, text));
      TruncateClean(u, Join(Words(u, text)), MAX_SLUG_LENGTH);
    } else {
      TruncateClean(u, fallback, MAX_SLUG_LENGTH);
    }
  }

  // ---- slugs are fixed points ----

  ghost predicate CleanPrefix(u: Classes, s: string) {
    && (s != "" ==> s[0] != '-')
    && (forall i :: 0 <= i < |s| ==> SlugChar(u, s[i]))
    && (forall i :: 0 <= i < |s| - 1 ==> s[i] != '-' || s[i + 1] != '-')
  }

  lemma {:induction false} WordsOfClean(u: Classes, s: string)
    requires CleanPrefix(u, s) && !u.alphanumeric('-')
    ensures Buffer(u, s) == s
  {
    if s != "" {
      var n := |s| - 1;
      WordsOfClean(u, s[..n]);
      assert s == s[..n] + [s[n]];
      CleanLast(u, s);
      BufferStep(u, s[..n], s[n]);
    }
  }

  lemma CleanLast(u: Classes, s: string)
    requires CleanPrefix(u, s) && s != "" && !u.alphanumeric('-')
    ensures s[|s| - 1] == '-' <==> !u.alphanumeric(s[|s| - 1])
    ensures s[|s| - 1] == '-' ==> |s| > 1 && u.alphanumeric(s[|s| - 2]) && !Pending(u, s[..|s| - 1])
  {
    assert |s| > 1 ==> SlugChar(u, s[|s| - 2]);
  }

  lemma CleanUntouched(u: Unicode, s: string)
    requires Clean(u, s)
    ensures TrimMatches(s, u.space) == s && TrimMatches(s, IsSlash) == s && Lowered(u, s) == s
    ensures u.lowerText(s) == s
  {
    TrimEdged(s, u.space);
    TrimEdged(s, IsSlash);
    LoweredSame(u, s);
  }

  /** On a slug, `slugify` is the identity; hence it is idempotent. */
  lemma SlugifyFixesSlugs(u: Unicode, s: string, fallback: string)
    requires NormalForm(u, s)
    ensures Slugify(u, s, fallback) == s
  {
    CleanUntouched(u, s);
    WordsOfClean(u, s);
    assert Join(Words(u, s)) == s;
    TruncateClean(u, s, MAX_SLUG_LENGTH);
  }

  lemma SlugifyIdempotent(u: Unicode, input: string, fallback: string, fallback': string)
    requires NormalForm(u, fallback)
    ensures Slugify(u, Slugify(u, input, fallback), fallback') == Slugify(u, input, fallback)
  {
    SlugifyNormal(u, input, fallback);
    SlugifyFixesSlugs(u, Slugify(u, input, fallback), fallback');
  }

  function NormalizeSlugLookup(u: Classes, value: string): Option<string> {
    var trimmed := TrimMatches(TrimMatches(value, u.space), IsSlash);
    if trimmed == "" then None else Some(u.lowerText(trimmed))
  }

  lemma LookupKeepsSlugs(u: Unicode, s: string)
    requires NormalForm(u, s)
    ensures NormalizeSlugLookup(u, s) == Some(s)
  {
    CleanUntouched(u, s);
  }

  // ---- suffixes ----

  function Digit(d: nat): char
    requires d < 10
  {
    ('0' as int + d) as char
  }

  function Decimal(n: nat): string {
    if n < 10 then [Digit(n)] else Decimal(n / 10) + [Digit(n % 10)]
  }

  function AppendSlugSuffix(base: string, suffix: nat): string {
    if suffix <= 1 then TruncateSlug(base, MAX_SLUG_LENGTH)
    else
      var suffixText := "-" + Decimal(suffix);
      TruncateSlug(base, if |suffixText| <= MAX_SLUG_LENGTH then MAX_SLUG_LENGTH - |suffixText| else 0) + suffixText
  }

  const U32_LIMIT: nat := 0x1_0000_0000

  function Power10(k: nat): nat {
    if k == 0 then 1 else 10 * Power10(k - 1)
  }

  lemma {:induction false} DecimalLength(n: nat, k: nat)
    requires k > 0 && n < Power10(k)
    ensures |Decimal(n)| <= k
  {
    if n >= 10 {
      assert k > 1;
      DecimalLength(n / 10, k - 1);
    }
  }

  lemma TenDigits(n: nat)
    requires n < U32_LIMIT
    ensures |Decimal(n)| <= 10
  {
    assert Power10(5) == 100_000;
    assert Power10(10) == 10_000_000_000;
    DecimalLength(n, 10);
  }

  lemma {:induction false} DecimalDigits(n: nat)
    ensures Decimal(n) != "" && forall i :: 0 <= i < |Decimal(n)| ==> IsDigit(Decimal(n)[i])
  {
    if n >= 10 {
      DecimalDigits(n / 10);
    }
  }

  lemma {:induction false} DecimalInjective(m: nat, n: nat)
    requires Decimal(m) == Decimal(n)
    ensures m == n
  {
    DecimalDigits(m / 10);
    DecimalDigits(n / 10);
    assert |Decimal(m)| == 1 <==> m < 10;
    assert |Decimal(n)| == 1 <==> n < 10;
    if m >= 10 && n >= 10 {
      var a, b := Decimal(m / 10), Decimal(n / 10);
      assert a == Decimal(m)[..|Decimal(m)| - 1] == Decimal(n)[..|Decimal(n)| - 1] == b;
      assert Decimal(m)[|Decimal(m)| - 1] == Digit(m % 10) && Decimal(n)[|Decimal(n)| - 1] == Digit(n % 10);
      DecimalInjective(m / 10, n / 10);
    } else if m < 10 && n < 10 {
      assert Decimal(m)[0] == Digit(m) && Decimal(n)[0] == Digit(n);
    }
  }

  lemma DigitsLower(u: Unicode, n: nat)
    ensures LowerWord(u, Decimal(n))
  {
    DecimalDigits(n);
  }

  lemma SuffixedClean(u: Classes, base: string, suffix: nat)
    requires NormalForm(u, base) && 2 <= suffix && |Decimal(suffix)| <= 10 && LowerWord(u, Decimal(suffix))
    ensures NormalForm(u, AppendSlugSuffix(base, suffix))
  {
    var room := MAX_SLUG_LENGTH - 1 - |Decimal(suffix)|;
    TruncateClean(u, base, room);
    CleanAppend(u, TruncateSlug(base, room), Decimal(suffix));
    assert TruncateSlug(base, room) + "-" + Decimal(suffix) == TruncateSlug(base, room) + ("-" + Decimal(suffix));
  }

  /** A slug with a suffix is in normal form. */
  lemma AppendNormal(u: Unicode, base: string, suffix: nat)
    requires NormalForm(u, base) && suffix < U32_LIMIT
    ensures NormalForm(u, AppendSlugSuffix(base, suffix))
  {
    if suffix <= 1 {
      TruncateClean(u, base, MAX_SLUG_LENGTH);
    } else {
      TenDigits(suffix);
      DigitsLower(u, suffix);
      SuffixedClean(u, base, suffix);
    }
  }

  /** The digits after the last hyphen give the suffix back. */
  lemma LastHyphen(a: string, u: string, b: string, v: string)
    requires (forall i :: 0 <= i < |u| ==> IsDigit(u[i])) && (forall i :: 0 <= i < |v| ==> IsDigit(v[i]))
    requires a + "-" + u == b + "-" + v
    ensures u == v
  {
    var s := a + "-" + u;
    assert s[|a|] == '-' && s[|b|] == '-';
    assert forall i :: |a| < i < |s| ==> s[i] == u[i - |a| - 1] && IsDigit(u[i - |a| - 1]);
    assert forall i :: |b| < i < |s| ==> s[i] == v[i - |b| - 1] && IsDigit(v[i - |b| - 1]);
    assert |a| == |b|;
    assert u == s[|a| + 1..] == v;
  }

  /** Candidates for different suffixes from 2 on are different; suffix 1 may coincide with one. */
  lemma CandidatesDistinct(base: string, m: nat, n: nat)
    requires m >= 2 && n >= 2 && AppendSlugSuffix(base, m) == AppendSlugSuffix(base, n)
    ensures m == n
  {
    DecimalDigits(m);
    DecimalDigits(n);
    var a := TruncateSlug(base, if |"-" + Decimal(m)| <= MAX_SLUG_LENGTH then MAX_SLUG_LENGTH - |"-" + Decimal(m)| else 0);
    var b := TruncateSlug(base, if |"-" + Decimal(n)| <= MAX_SLUG_LENGTH then MAX_SLUG_LENGTH - |"-" + Decimal(n)| else 0);
    assert AppendSlugSuffix(base, m) == a + "-" + Decimal(m);
    assert AppendSlugSuffix(base, n) == b + "-" + Decimal(n);
    LastHyphen(a, Decimal(m), b, Decimal(n));
    DecimalInjective(m, n);
  }

  /** Suffix 1 may coincide with a later one. */
  lemma SuffixOneMayCoincide(u: Unicode)
    ensures var base := seq(118, _ => 'a') + "-2";
            NormalForm(u, base) && AppendSlugSuffix(base, 1) == AppendSlugSuffix(base, 2)
  {
    assert IsAsciiLower('a') && IsDigit('2');
    assert SlugChar(u, 'a') && SlugChar(u, '2');
    Coincide(u);
  }

  lemma Coincide(u: Classes)
    requires SlugChar(u, 'a') && SlugChar(u, '2')
    ensures var base := seq(118, _ => 'a') + "-2";
            NormalForm(u, base) && AppendSlugSuffix(base, 1) == AppendSlugSuffix(base, 2)
  {
    var as_ := seq(118, _ => 'a');
    var base := as_ + "-2";
    assert Clean(u, base);
    TruncateClean(u, base, MAX_SLUG_LENGTH);
    assert Decimal(2) == "2" && |"-" + Decimal(2)| == 2;
    TruncateClean(u, base, 118);
    assert base[..118] == as_;
  }
}
