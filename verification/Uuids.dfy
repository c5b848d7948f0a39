// The texts by which a row can be named by id: what `Uuid::parse_str` accepts.
module Uuids {
  import opened Common

  predicate IsLowerHex(c: char) { '0' <= c <= '9' || 'a' <= c <= 'f' }

  predicate IsHyphenPlace(i: int) { i == 8 || i == 13 || i == 18 || i == 23 }

  function HexLower(c: char): char {
    if 'A' <= c <= 'F' then (c as int + 32) as char else c
  }

  /** The canonical text of an id: 32 lower-case hexadecimal digits in five hyphenated groups. */
  predicate IsUuid(id: string) {
    |id| == 36 && forall i :: 0 <= i < 36 ==> if IsHyphenPlace(i) then id[i] == '-' else IsLowerHex(id[i])
  }

  function Canonical(text: string): (id: string)
    ensures |id| == |text| && forall i :: 0 <= i < |id| ==> id[i] == HexLower(text[i])
  {
    seq(|text|, i requires 0 <= i < |text| => HexLower(text[i]))
  }

  function ParseHyphenated(text: string): Option<string> {
    if IsUuid(Canonical(text)) then Some(Canonical(text)) else None
  }

  /** The canonical text of the id that the text denotes: hyphenated, in braces, as a URN, or
      32 digits without hyphens, in either case. */
  function ParseUuid(text: string): Option<string> {
    if |text| == 32 then
      ParseHyphenated(text[..8] + "-" + text[8..12] + "-" + text[12..16] + "-" + text[16..20] + "-" + text[20..])
    else if |text| == 36 then ParseHyphenated(text)
    else if |text| == 38 && text[0] == '{' && text[37] == '}' then ParseHyphenated(text[1..37])
    else if |text| == 45 && text[..9] == "urn:uuid:" then ParseHyphenated(text[9..])
    else None
  }

  /** The texts of an id: hyphenated, in braces, as a URN, or its digits alone, in either case. */
  ghost predicate Denotes(text: string, id: string) {
    || Canonical(text) == id
    || (|text| == 38 && text[0] == '{' && text[37] == '}' && Canonical(text[1..37]) == id)
    || (|text| == 45 && text[..9] == "urn:uuid:" && Canonical(text[9..]) == id)
    || (|id| == 36 && Canonical(text) == id[..8] + id[9..13] + id[14..18] + id[19..23] + id[24..])
  }

  /** A text parses to an id if and only if it is one of the id's texts. */
  lemma ParseIff(text: string, id: string)
    requires IsUuid(id)
    ensures ParseUuid(text) == Some(id) <==> Denotes(text, id)
  {
    if |text| == 32 {
      SimpleForm(text, id);
    }
  }

  /** The letter is the digit, or its capital. */
  predicate SameDigit(c: char, digit: char) {
    c == digit || ('a' <= digit <= 'f' && c as int == digit as int - 32)
  }

  /** Letter case does not matter, and nothing else may differ. */
  lemma CaseDoesNotMatter(text: string, id: string)
    requires IsUuid(id) && |text| == 36
    ensures ParseUuid(text) == Some(id) <==> forall i :: 0 <= i < 36 ==> SameDigit(text[i], id[i])
  {
    forall i | 0 <= i < 36 ensures SameDigit(text[i], id[i]) <==> Canonical(text)[i] == id[i] {
      assert id[i] == '-' || IsLowerHex(id[i]);
    }
    assert Canonical(text) == id <==> forall i :: 0 <= i < 36 ==> Canonical(text)[i] == id[i];
  }

  lemma SimpleForm(text: string, id: string)
    requires IsUuid(id) && |text| == 32
    ensures var spread := text[..8] + "-" + text[8..12] + "-" + text[12..16] + "-" + text[16..20] + "-" + text[20..];
      Canonical(spread) == id <==> Canonical(text) == id[..8] + id[9..13] + id[14..18] + id[19..23] + id[24..]
  {
    var spread := text[..8] + "-" + text[8..12] + "-" + text[12..16] + "-" + text[16..20] + "-" + text[20..];
    var digits := id[..8] + id[9..13] + id[14..18] + id[19..23] + id[24..];
    assert |spread| == 36 && |digits| == 32;
    if Canonical(spread) == id {
      forall i | 0 <= i < 32 ensures Canonical(text)[i] == digits[i] {
        var k := i + if i < 8 then 0 else if i < 12 then 1 else if i < 16 then 2 else if i < 20 then 3 else 4;
        assert spread[k] == text[i] && digits[i] == id[k];
      }
    }
    if Canonical(text) == digits {
      forall k | 0 <= k < 36 ensures Canonical(spread)[k] == id[k] {
        if IsHyphenPlace(k) {
          assert spread[k] == '-';
        } else {
          var i := k - if k < 8 then 0 else if k < 13 then 1 else if k < 18 then 2 else if k < 23 then 3 else 4;
          assert spread[k] == text[i] && digits[i] == id[k];
        }
      }
    }
  }

  /** Parsing gives canonical texts, and gives those back. */
  lemma ParsedIsUuid(text: string)
    ensures ParseUuid(text).Some? ==> IsUuid(ParseUuid(text).value)
    ensures IsUuid(text) <==> ParseUuid(text) == Some(text)
  {
    if IsUuid(text) {
      assert Canonical(text) == text;
    }
  }
}
