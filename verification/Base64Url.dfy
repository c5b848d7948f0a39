// src/shared/security.rs: base64url without padding (section 5 of RFC 4648), used for the
// PKCE code challenge (section 4.2 of RFC 7636).
module Base64Url {
  import opened Common

  type Octet = v: int | 0 <= v < 256

  /** The numbers that a slice of u8 holds. */
  function Values(bytes: seq<bv8>): (v: seq<Octet>)
    ensures |v| == |bytes|
  {
    seq(|bytes|, i requires 0 <= i < |bytes| => bytes[i] as int)
  }

  const BASE64_URL_TABLE: string :=
    "ABCDEFGHIJKLMNOPQRSTUVWXYZ" + "abcdefghijklmnopqrstuvwxyz" + "0123456789" + "-_"

  function Run(first: char, n: nat): string
    requires first as int + n < 0xD800
  {
    seq(n, i requires 0 <= i < n => (first as int + i) as char)
  }

  /** The alphabet of RFC 4648, section 5, by its ranges. */
  function Alphabet(): (s: string)
    ensures |s| == 64
  {
    Run('A', 26) + Run('a', 26) + Run('0', 10) + "-_"
  }

  /** The value of a character in that alphabet, by the same ranges. */
  function Value(c: char): (v: Option<nat>)
    ensures v.Some? ==> v.value < 64
  {
    if 'A' <= c <= 'Z' then Some(c as int - 'A' as int)
    else if 'a' <= c <= 'z' then Some(c as int - 'a' as int + 26)
    else if '0' <= c <= '9' then Some(c as int - '0' as int + 52)
    else if c == '-' then Some(62)
    else if c == '_' then Some(63)
    else None
  }

  lemma TableIsAlphabet()
    ensures BASE64_URL_TABLE == Alphabet()
  {
    UpperRun();
    LowerRun();
    DigitRun();
  }

  lemma UpperRun()
    ensures Run('A', 26) == "ABCDEFGHIJKLMNOPQRSTUVWXYZ"
  {
  }

  lemma LowerRun()
    ensures Run('a', 26) == "abcdefghijklmnopqrstuvwxyz"
  {
  }

  lemma DigitRun()
    ensures Run('0', 10) == "0123456789"
  {
  }

  lemma SymbolValue(c: char, v: nat)
    ensures Value(c) == Some(v) <==> v < 64 && c == Alphabet()[v]
  {
  }

  // ---- the encoding as arithmetic on 24-bit groups ----

  function Symbol(v: nat): char
    requires v < 64
  {
    Alphabet()[v]
  }

  function Group(a: Octet, b: Octet, c: Octet): (g: nat)
    ensures g < 0x1000000
  {
    (a * 256 + b) * 256 + c
  }

  /** The first `count` six-bit digits of a 24-bit group, most significant first. */
  function Digits(g: nat, count: nat): (s: string)
    requires g < 0x1000000 && count <= 4
    ensures |s| == count
  {
    [Symbol(g / 64 / 64 / 64), Symbol(g / 64 / 64 % 64), Symbol(g / 64 % 64), Symbol(g % 64)][..count]
  }

  function Encode(bytes: seq<Octet>): string {
    if |bytes| == 0 then ""
    else if |bytes| == 1 then Digits(Group(bytes[0], 0, 0), 2)
    else if |bytes| == 2 then Digits(Group(bytes[0], bytes[1], 0), 3)
    else Digits(Group(bytes[0], bytes[1], bytes[2]), 4) + Encode(bytes[3..])
  }

  // ---- the loop of `base64_url_no_pad`, with its shifts and masks on u32 ----

  function Chunk(a: bv8, b: bv8, c: bv8): bv32 {
    (a as bv32 << 16) | (b as bv32 << 8) | c as bv32
  }

  function First(chunk: bv32): bv6 { ((chunk >> 18) & 0x3f) as bv6 }
  function Second(chunk: bv32): bv6 { ((chunk >> 12) & 0x3f) as bv6 }
  function Third(chunk: bv32): bv6 { ((chunk >> 6) & 0x3f) as bv6 }
  function Fourth(chunk: bv32): bv6 { (chunk & 0x3f) as bv6 }

  function Join(p: bv6, q: bv6, r: bv6, s: bv6): bv32 {
    (p as bv32 << 18) | (q as bv32 << 12) | (r as bv32 << 6) | s as bv32
  }

  function Lookup(v: bv6): char {
    BASE64_URL_TABLE[v as int]
  }

  /** Packs three octets into the 24-bit chunk. */
  method Pack(a: bv8, b: bv8, c: bv8) returns (chunk: bv32)
    ensures chunk as int == Group(a as int, b as int, c as int)
  {
    chunk := Chunk(a, b, c);
    ChunkBits(a, b, c);
  }

  /** Pushes the `k`-th six-bit digit of the chunk, most significant first. */
  method PushDigit(output: string, chunk: bv32, k: nat) returns (output': string)
    requires chunk as int < 0x1000000 && k < 4
    ensures output' == output + [Digits(chunk as int, 4)[k]]
  {
    SymbolsOfChunk(chunk);
    var group :=
      if k == 0 then First(chunk) else if k == 1 then Second(chunk)
      else if k == 2 then Third(chunk) else Fourth(chunk);
    output' := output + [Lookup(group)];
  }

  /** Pushes the first `count` digits of the chunk. */
  method PushDigits(output: string, chunk: bv32, count: nat) returns (output': string)
    requires chunk as int < 0x1000000 && count <= 4
    ensures output' == output + Digits(chunk as int, 4)[..count]
  {
    output' := output;
    ghost var digits := Digits(chunk as int, 4);
    for k := 0 to count
      invariant output' == output + digits[..k]
    {
      output' := PushDigit(output', chunk, k);
      assert digits[..k + 1] == digits[..k] + [digits[k]];
    }
  }

  method PushGroup(output: string, a: bv8, b: bv8, c: bv8, count: nat) returns (output': string)
    requires count <= 4
    ensures output' == output + Digits(Group(a as int, b as int, c as int), count)
  {
    var chunk := Pack(a, b, c);
    output' := PushDigits(output, chunk, count);
  }

  method Base64UrlNoPad(bytes: seq<bv8>) returns (output: string)
    ensures output == Encode(Values(bytes))
  {
    ghost var values := Values(bytes);
    output := "";
    var index := 0;
    while index + 3 <= |bytes|
      invariant 0 <= index <= |bytes|
      invariant output + Encode(values[index..]) == Encode(values)
    {
      EncodeStep(values, index);
      ghost var digits := Digits(Group(values[index], values[index + 1], values[index + 2]), 4);
      Associate(output, digits, Encode(values[index + 3..]));
      output := PushGroup(output, bytes[index], bytes[index + 1], bytes[index + 2], 4);
      index := index + 3;
    }
    output := PushTail(output, bytes[index..]);
    assert Values(bytes[index..]) == values[index..];
  }

  /** The match on the one or two octets left after the loop. */
  method PushTail(output: string, tail: seq<bv8>) returns (output': string)
    requires |tail| < 3
    ensures output' == output + Encode(Values(tail))
  {
    output' := output;
    if |tail| == 1 {
      output' := PushGroup(output, tail[0], 0, 0, 2);
    } else if |tail| == 2 {
      output' := PushGroup(output, tail[0], tail[1], 0, 3);
    }
  }

  lemma ChunkShifts(a: bv8, b: bv8, c: bv8)
    ensures Chunk(a, b, c) == (((a as bv32 << 8) | b as bv32) << 8) | c as bv32
    ensures (a as bv32 << 8) | b as bv32 < 0x10000
  {
  }

  lemma ShiftedEight(a: bv8, b: bv8, c: bv8)
    ensures ((((a as bv32 << 8) | b as bv32) << 8) | c as bv32) as int == Group(a as int, b as int, c as int)
  {
  }

  lemma ChunkBits(a: bv8, b: bv8, c: bv8)
    ensures Chunk(a, b, c) as int == Group(a as int, b as int, c as int)
  {
    ChunkShifts(a, b, c);
    ShiftedEight(a, b, c);
  }

  lemma JoinShifts(p: bv6, q: bv6, r: bv6, s: bv6)
    ensures Join(p, q, r, s) == (((((p as bv32 << 6) | q as bv32) << 6) | r as bv32) << 6) | s as bv32
    ensures (p as bv32 << 6) | q as bv32 < 0x1000
    ensures (((p as bv32 << 6) | q as bv32) << 6) | r as bv32 < 0x40000
  {
  }

  lemma ShiftedSix(p: bv6, q: bv6, r: bv6, s: bv6)
    ensures ((((((p as bv32 << 6) | q as bv32) << 6) | r as bv32) << 6) | s as bv32) as int
         == ((p as int * 64 + q as int) * 64 + r as int) * 64 + s as int
  {
  }

  lemma JoinBits(p: bv6, q: bv6, r: bv6, s: bv6)
    ensures Join(p, q, r, s) as int == ((p as int * 64 + q as int) * 64 + r as int) * 64 + s as int
  {
    JoinShifts(p, q, r, s);
    ShiftedSix(p, q, r, s);
  }

  lemma SplitJoins(x: bv32)
    requires x < 0x1000000
    ensures x == Join(First(x), Second(x), Third(x), Fourth(x))
  {
  }

  /** The masks and shifts pick the base-64 digits of the chunk. */
  lemma ChunkDigits(x: bv32)
    requires x as int < 0x1000000
    ensures x as int == ((First(x) as int * 64 + Second(x) as int) * 64 + Third(x) as int) * 64 + Fourth(x) as int
  {
    SplitJoins(x);
    JoinBits(First(x), Second(x), Third(x), Fourth(x));
  }

  lemma DigitSymbols(g: nat, p: bv6, q: bv6, r: bv6, s: bv6)
    requires g == ((p as int * 64 + q as int) * 64 + r as int) * 64 + s as int && g < 0x1000000
    ensures Digits(g, 4) == [Lookup(p), Lookup(q), Lookup(r), Lookup(s)]
  {
    DigitsUnique(g, p as int, q as int, r as int, s as int);
    TableIsAlphabet();
  }

  lemma SymbolsOfChunk(x: bv32)
    requires x as int < 0x1000000
    ensures Digits(x as int, 4) == [Lookup(First(x)), Lookup(Second(x)), Lookup(Third(x)), Lookup(Fourth(x))]
  {
    ChunkDigits(x);
    SixBitValues(First(x), Second(x), Third(x), Fourth(x));
    DigitSymbols(x as int, First(x), Second(x), Third(x), Fourth(x));
  }

  lemma SixBitValues(p: bv6, q: bv6, r: bv6, s: bv6)
    ensures ((p as int * 64 + q as int) * 64 + r as int) * 64 + s as int < 0x1000000
  {
  }

  lemma Associate(a: string, b: string, c: string)
    ensures (a + b) + c == a + (b + c)
  {
  }

  lemma EncodeStep(bytes: seq<Octet>, index: nat)
    requires index + 3 <= |bytes|
    ensures Encode(bytes[index..])
         == Digits(Group(bytes[index], bytes[index + 1], bytes[index + 2]), 4) + Encode(bytes[index + 3..])
  {
  }

  lemma DigitsUnique(g: nat, p: nat, q: nat, r: nat, s: nat)
    requires p < 64 && q < 64 && r < 64 && s < 64
    requires g == ((p * 64 + q) * 64 + r) * 64 + s
    ensures g / 64 / 64 / 64 == p && g / 64 / 64 % 64 == q && g / 64 % 64 == r && g % 64 == s
  {
  }

  // ---- the inverse ----

  /** Reads four digits, the absent ones being zero. */
  function ReadGroup(s: string): (g: Option<nat>)
    requires |s| <= 4
    ensures g.Some? ==> g.value < 0x1000000
  {
    var p := if |s| > 0 then Value(s[0]) else Some(0);
    var q := if |s| > 1 then Value(s[1]) else Some(0);
    var r := if |s| > 2 then Value(s[2]) else Some(0);
    var t := if |s| > 3 then Value(s[3]) else Some(0);
    if p.Some? && q.Some? && r.Some? && t.Some?
    then Some(((p.value * 64 + q.value) * 64 + r.value) * 64 + t.value)
    else None
  }

  function Octets(g: nat, count: nat): (o: seq<Octet>)
    requires g < 0x1000000 && count <= 3
    ensures |o| == count
  {
    [g / 256 / 256, g / 256 % 256, g % 256][..count]
  }

  /** A strict decoder: it rejects a lone final character, characters outside the alphabet
      and final characters whose unused bits are set. */
  function Decode(s: string): Option<seq<Octet>> {
    if |s| == 0 then Some([])
    else if |s| == 1 then None
    else if |s| <= 3 then
      var g := ReadGroup(s);
      if g.Some? && g.value % 256 == 0 && (|s| == 2 ==> g.value / 256 % 256 == 0)
      then Some(Octets(g.value, |s| - 1)) else None
    else
      var g, rest := ReadGroup(s[..4]), Decode(s[4..]);
      if g.Some? && rest.Some? then Some(Octets(g.value, 3) + rest.value) else None
  }

  lemma OctetsOfGroup(a: Octet, b: Octet, c: Octet)
    ensures var g := Group(a, b, c); g / 256 / 256 == a && g / 256 % 256 == b && g % 256 == c
  {
  }

  lemma GroupOfOctets(g: nat)
    requires g < 0x1000000
    ensures Group(g / 256 / 256, g / 256 % 256, g % 256) == g
  {
  }

  lemma ReadDigits(g: nat)
    requires g < 0x1000000
    ensures ReadGroup(Digits(g, 4)) == Some(g)
    ensures g % 256 == 0 ==> ReadGroup(Digits(g, 3)) == Some(g)
    ensures g % 256 == 0 && g / 256 % 256 == 0 ==> ReadGroup(Digits(g, 2)) == Some(g)
  {
    var p, q, r, t := g / 64 / 64 / 64, g / 64 / 64 % 64, g / 64 % 64, g % 64;
    SymbolValue(Symbol(p), p);
    SymbolValue(Symbol(q), q);
    SymbolValue(Symbol(r), r);
    SymbolValue(Symbol(t), t);
    assert g == ((p * 64 + q) * 64 + r) * 64 + t;
    LowDigits(g);
  }

  lemma LowDigits(g: nat)
    requires g < 0x1000000
    ensures g % 256 == 0 ==> g % 64 == 0
    ensures g % 256 == 0 && g / 256 % 256 == 0 ==> g / 64 % 64 == 0
  {
  }

  lemma DigitsRead(s: string)
    requires 2 <= |s| <= 4 && ReadGroup(s).Some?
    ensures Digits(ReadGroup(s).value, |s|) == s
  {
    var p, q := Value(s[0]).value, Value(s[1]).value;
    var r := if |s| > 2 then Value(s[2]).value else 0;
    var t := if |s| > 3 then Value(s[3]).value else 0;
    DigitsUnique(ReadGroup(s).value, p, q, r, t);
    forall i | 0 <= i < |s| ensures Symbol([p, q, r, t][i]) == s[i] {
      SymbolValue(s[i], [p, q, r, t][i]);
    }
  }

  lemma DecodeGroup(g: nat, rest: string)
    requires g < 0x1000000 && Decode(rest).Some?
    ensures Decode(Digits(g, 4) + rest) == Some(Octets(g, 3) + Decode(rest).value)
  {
    var d := Digits(g, 4);
    assert (d + rest)[..4] == d && (d + rest)[4..] == rest;
    ReadDigits(g);
  }

  lemma OctetsBack(a: Octet, b: Octet, c: Octet)
    ensures Octets(Group(a, b, c), 3) == [a, b, c]
  {
  }

  lemma DecodeStep(bytes: seq<Octet>, rest: string)
    requires |bytes| >= 3 && Decode(rest) == Some(bytes[3..])
    ensures Decode(Digits(Group(bytes[0], bytes[1], bytes[2]), 4) + rest) == Some(bytes)
  {
    var a, b, c := bytes[0], bytes[1], bytes[2];
    DecodeGroup(Group(a, b, c), rest);
    OctetsBack(a, b, c);
    assert bytes == [a, b, c] + bytes[3..];
  }

  lemma DecodeTail(bytes: seq<Octet>)
    requires 1 <= |bytes| <= 2
    ensures Decode(Encode(bytes)) == Some(bytes)
  {
    var b := if |bytes| == 2 then bytes[1] else 0;
    var g := Group(bytes[0], b, 0);
    ReadDigits(g);
    OctetsOfGroup(bytes[0], b, 0);
    assert Octets(g, |bytes|) == bytes;
  }

  lemma {:induction false} DecodeEncode(bytes: seq<Octet>)
    ensures Decode(Encode(bytes)) == Some(bytes)
  {
    if 1 <= |bytes| <= 2 {
      DecodeTail(bytes);
    } else if |bytes| >= 3 {
      DecodeEncode(bytes[3..]);
      DecodeStep(bytes, Encode(bytes[3..]));
    }
  }

  lemma EncodeTail(s: string)
    requires 2 <= |s| <= 3 && Decode(s).Some?
    ensures Encode(Decode(s).value) == s
  {
    var g := ReadGroup(s).value;
    GroupOfOctets(g);
    DigitsRead(s);
  }

  lemma {:induction false} EncodeDecode(s: string)
    requires Decode(s).Some?
    ensures Encode(Decode(s).value) == s
  {
    if 2 <= |s| <= 3 {
      EncodeTail(s);
    } else if |s| >= 4 {
      var g, rest := ReadGroup(s[..4]).value, Decode(s[4..]).value;
      GroupOfOctets(g);
      DigitsRead(s[..4]);
      EncodeDecode(s[4..]);
      assert (Octets(g, 3) + rest)[3..] == rest;
      assert s == s[..4] + s[4..];
    }
  }

  /** Encoding is a bijection between byte strings and the strings the strict decoder accepts. */
  lemma RoundTrip(bytes: seq<Octet>, s: string)
    ensures Decode(s) == Some(bytes) <==> s == Encode(bytes)
  {
    DecodeEncode(bytes);
    if Decode(s) == Some(bytes) {
      EncodeDecode(s);
    }
  }

  /** Different inputs to `base64_url_no_pad` give different outputs. */
  lemma EncodeInjective(a: seq<bv8>, b: seq<bv8>)
    ensures Encode(Values(a)) == Encode(Values(b)) <==> a == b
  {
    RoundTrip(Values(a), Encode(Values(a)));
    RoundTrip(Values(b), Encode(Values(a)));
    if Values(a) == Values(b) {
      forall i | 0 <= i < |a| ensures a[i] == b[i] {
        assert Values(a)[i] == Values(b)[i];
        SameValue(a[i], b[i]);
      }
    }
  }

  lemma SameValue(a: bv8, b: bv8)
    requires a as int == b as int
    ensures a == b
  {
  }

  /** The capacity the source reserves, `4 n` divided by 3 rounding up, is exactly the length. */
  lemma {:induction false} EncodeLength(bytes: seq<Octet>)
    ensures |Encode(bytes)| == (4 * |bytes| + 2) / 3
  {
    if |bytes| >= 3 {
      EncodeLength(bytes[3..]);
    }
  }

  lemma DigitsInAlphabet(g: nat, count: nat, i: nat)
    requires g < 0x1000000 && i < count <= 4
    ensures Value(Digits(g, count)[i]).Some?
  {
  }

  lemma {:induction false} EncodeInAlphabet(bytes: seq<Octet>, i: nat)
    requires i < |Encode(bytes)|
    ensures Value(Encode(bytes)[i]).Some?
  {
    if |bytes| == 1 {
      DigitsInAlphabet(Group(bytes[0], 0, 0), 2, i);
    } else if |bytes| == 2 {
      DigitsInAlphabet(Group(bytes[0], bytes[1], 0), 3, i);
    } else if i < 4 {
      DigitsInAlphabet(Group(bytes[0], bytes[1], bytes[2]), 4, i);
    } else {
      EncodeInAlphabet(bytes[3..], i - 4);
    }
  }

  // ---- the encoding, bit by bit ----

  /** The `count` low bits of a number, most significant first. */
  function Bits(v: nat, count: nat): (b: seq<bool>)
    ensures |b| == count
  {
    if count == 0 then [] else Bits(v / 2, count - 1) + [v % 2 == 1]
  }

  /** Numbers of this many bits each, one after the other. */
  function BitString(values: seq<nat>, width: nat): (b: seq<bool>)
    ensures |b| == width * |values|
  {
    if values == [] then [] else Bits(values[0], width) + BitString(values[1..], width)
  }

  function SymbolValues(s: string): (v: seq<nat>)
    ensures |v| == |s|
  {
    seq(|s|, i requires 0 <= i < |s| => Value(s[i]).GetOr(0))
  }

  function Zeros(count: nat): (b: seq<bool>)
    ensures |b| == count
  {
    seq(count, _ => false)
  }

  function Power2(m: nat): nat {
    if m == 0 then 1 else 2 * Power2(m - 1)
  }

  lemma Halve(high: nat, low: nat, half: nat)
    requires low < 2 * half
    ensures (high * (2 * half) + low) / 2 == high * half + low / 2
    ensures (high * (2 * half) + low) % 2 == low % 2
  {
    assert high * (2 * half) + low == 2 * (high * half) + low;
  }

  lemma {:induction false} BitsSplit(high: nat, low: nat, k: nat, m: nat)
    requires low < Power2(m)
    ensures Bits(high * Power2(m) + low, k + m) == Bits(high, k) + Bits(low, m)
  {
    if m > 0 {
      Halve(high, low, Power2(m - 1));
      BitsSplit(high, low / 2, k, m - 1);
    } else {
      assert Bits(high, k) + [] == Bits(high, k);
    }
  }

  lemma Powers()
    ensures Power2(6) == 64 && Power2(8) == 256
  {
    assert Power2(4) == 16;
  }

  lemma SplitOctet(high: nat, low: nat, k: nat, o: nat)
    requires o == 8 && low < 256
    ensures Bits(high * 256 + low, k + o) == Bits(high, k) + Bits(low, o)
  {
    Powers();
    BitsSplit(high, low, k, o);
  }

  lemma SplitSix(g: nat, k: nat, x: nat)
    requires x == 6
    ensures Bits(g, k + x) == Bits(g / 64, k) + Bits(g % 64, x)
  {
    Powers();
    BitsSplit(g / 64, g % 64, k, x);
  }

  lemma GroupBits(a: Octet, b: Octet, c: Octet, o: nat)
    requires o == 8
    ensures Bits(Group(a, b, c), o + o + o) == Bits(a, o) + Bits(b, o) + Bits(c, o)
  {
    SplitOctet(a * 256 + b, c, o + o, o);
    SplitOctet(a, b, o, o);
  }

  lemma DigitBits(g: nat, x: nat)
    requires g < 0x1000000 && x == 6
    ensures Bits(g, x + x + x + x)
         == Bits(g / 64 / 64 / 64, x) + Bits(g / 64 / 64 % 64, x) + Bits(g / 64 % 64, x) + Bits(g % 64, x)
  {
    SplitSix(g, x + x + x, x);
    SplitSix(g / 64, x + x, x);
    SplitSix(g / 64 / 64, x, x);
  }

  lemma {:induction false} BitStringConcat(v: seq<nat>, w: seq<nat>, width: nat)
    ensures BitString(v + w, width) == BitString(v, width) + BitString(w, width)
  {
    if v == [] {
      assert v + w == w;
    } else {
      assert (v + w)[1..] == v[1..] + w;
      BitStringConcat(v[1..], w, width);
    }
  }

  lemma TwoBits(p: nat, q: nat, width: nat)
    ensures BitString([p], width) == Bits(p, width)
    ensures BitString([p, q], width) == Bits(p, width) + Bits(q, width)
  {
    OneMoreValue([], p, width);
    OneMoreValue([p], q, width);
    assert [] + [p] == [p] && [p] + [q] == [p, q];
  }

  lemma ThreeBits(p: nat, q: nat, r: nat, width: nat)
    ensures BitString([p, q, r], width) == Bits(p, width) + Bits(q, width) + Bits(r, width)
  {
    TwoBits(p, q, width);
    OneMoreValue([p, q], r, width);
    assert [p, q] + [r] == [p, q, r];
  }

  lemma FourBits(p: nat, q: nat, r: nat, t: nat, width: nat)
    ensures BitString([p, q, r, t], width) == Bits(p, width) + Bits(q, width) + Bits(r, width) + Bits(t, width)
  {
    ThreeBits(p, q, r, width);
    OneMoreValue([p, q, r], t, width);
    assert [p, q, r] + [t] == [p, q, r, t];
  }

  lemma OneMoreValue(v: seq<nat>, last: nat, width: nat)
    ensures BitString(v + [last], width) == BitString(v, width) + Bits(last, width)
  {
    BitStringConcat(v, [last], width);
    assert [last][1..] == [];
  }

  lemma DigitValues(g: nat, count: nat)
    requires g < 0x1000000 && count <= 4
    ensures SymbolValues(Digits(g, count)) == [g / 64 / 64 / 64, g / 64 / 64 % 64, g / 64 % 64, g % 64][..count]
  {
    var values := [g / 64 / 64 / 64, g / 64 / 64 % 64, g / 64 % 64, g % 64];
    forall i | 0 <= i < count ensures SymbolValues(Digits(g, count))[i] == values[i] {
      SymbolValue(Symbol(values[i]), values[i]);
    }
  }

  lemma Prefixes(a: seq<bool>, b: seq<bool>, c: seq<bool>, d: seq<bool>, x: nat)
    requires |a| == |b| == |c| == |d| == x
    ensures (a + b + c + d)[..x + x] == a + b
    ensures (a + b + c + d)[..x + x + x] == a + b + c
    ensures (a + b + c + d)[..x + x + x + x] == a + b + c + d
  {
  }

  // The first digits of a group carry its first bits.

  lemma TwoDigitsBits(g: nat, x: nat)
    requires g < 0x1000000 && x == 6
    ensures BitString(SymbolValues(Digits(g, 2)), x) == Bits(g, x + x + x + x)[..x + x]
  {
    var p, q, r, t := g / 64 / 64 / 64, g / 64 / 64 % 64, g / 64 % 64, g % 64;
    DigitValues(g, 2);
    assert [p, q, r, t][..2] == [p, q];
    TwoBits(p, q, x);
    DigitBits(g, x);
    Prefixes(Bits(p, x), Bits(q, x), Bits(r, x), Bits(t, x), x);
  }

  lemma ThreeDigitsBits(g: nat, x: nat)
    requires g < 0x1000000 && x == 6
    ensures BitString(SymbolValues(Digits(g, 3)), x) == Bits(g, x + x + x + x)[..x + x + x]
  {
    var p, q, r, t := g / 64 / 64 / 64, g / 64 / 64 % 64, g / 64 % 64, g % 64;
    DigitValues(g, 3);
    assert [p, q, r, t][..3] == [p, q, r];
    ThreeBits(p, q, r, x);
    DigitBits(g, x);
    Prefixes(Bits(p, x), Bits(q, x), Bits(r, x), Bits(t, x), x);
  }

  lemma FourDigitsBits(g: nat, x: nat)
    requires g < 0x1000000 && x == 6
    ensures BitString(SymbolValues(Digits(g, 4)), x) == Bits(g, x + x + x + x)
  {
    var p, q, r, t := g / 64 / 64 / 64, g / 64 / 64 % 64, g / 64 % 64, g % 64;
    DigitValues(g, 4);
    assert [p, q, r, t][..4] == [p, q, r, t];
    FourBits(p, q, r, t, x);
    DigitBits(g, x);
  }

  lemma {:induction false} ZeroBits(count: nat)
    ensures Bits(0, count) == Zeros(count)
  {
    if count > 0 {
      ZeroBits(count - 1);
    }
  }

  ghost predicate CarriesBits(text: string, bytes: seq<Octet>, x: nat, o: nat) {
    && x * |text| >= o * |bytes|
    && BitString(SymbolValues(text), x) == BitString(bytes, o) + Zeros(x * |text| - o * |bytes|)
  }

  lemma {:induction false} EncodeCarries(bytes: seq<Octet>, x: nat, o: nat)
    requires x == 6 && o == 8
    ensures CarriesBits(Encode(bytes), bytes, x, o)
  {
    if 1 <= |bytes| <= 2 {
      TailCarries(bytes, x, o);
    } else if |bytes| >= 3 {
      EncodeCarries(bytes[3..], x, o);
      GroupCarries(bytes[..3], x, o);
      var digits := Digits(Group(bytes[0], bytes[1], bytes[2]), 4);
      CarriesConcat(digits, bytes[..3], Encode(bytes[3..]), bytes[3..], x, o);
      assert bytes[..3] + bytes[3..] == bytes;
    }
  }

  lemma CarriesConcat(s: string, a: seq<Octet>, t: string, b: seq<Octet>, x: nat, o: nat)
    requires x * |s| == o * |a| && CarriesBits(s, a, x, o) && CarriesBits(t, b, x, o)
    ensures CarriesBits(s + t, a + b, x, o)
  {
    assert SymbolValues(s + t) == SymbolValues(s) + SymbolValues(t);
    BitStringConcat(SymbolValues(s), SymbolValues(t), x);
    BitStringConcat(a, b, o);
    assert x * |s + t| == x * |s| + x * |t| && o * |a + b| == o * |a| + o * |b|;
  }

  lemma GroupCarries(bytes: seq<Octet>, x: nat, o: nat)
    requires |bytes| == 3 && x == 6 && o == 8
    ensures CarriesBits(Digits(Group(bytes[0], bytes[1], bytes[2]), 4), bytes, x, o)
  {
    GroupBits(bytes[0], bytes[1], bytes[2], o);
    FourDigitsBits(Group(bytes[0], bytes[1], bytes[2]), x);
    ThreeBits(bytes[0], bytes[1], bytes[2], o);
    assert bytes == [bytes[0], bytes[1], bytes[2]];
  }

  lemma TailCarries(bytes: seq<Octet>, x: nat, o: nat)
    requires 1 <= |bytes| <= 2 && x == 6 && o == 8
    ensures CarriesBits(Encode(bytes), bytes, x, o)
  {
    if |bytes| == 1 {
      OneCarries(bytes[0], x, o);
      assert bytes == [bytes[0]] && Encode(bytes) == Digits(Group(bytes[0], 0, 0), 2);
    } else {
      TwoCarry(bytes[0], bytes[1], x, o);
      assert bytes == [bytes[0], bytes[1]] && Encode(bytes) == Digits(Group(bytes[0], bytes[1], 0), 3);
    }
  }

  lemma OneCarries(a: Octet, x: nat, o: nat)
    requires x == 6 && o == 8
    ensures CarriesBits(Digits(Group(a, 0, 0), 2), [a], x, o)
  {
    GroupBits(a, 0, 0, o);
    TwoDigitsBits(Group(a, 0, 0), x);
    TwoBits(a, 0, o);
    ZeroBits(o);
    assert (Bits(a, o) + Zeros(o) + Zeros(o))[..12] == Bits(a, o) + Zeros(4);
  }

  lemma TwoCarry(a: Octet, b: Octet, x: nat, o: nat)
    requires x == 6 && o == 8
    ensures CarriesBits(Digits(Group(a, b, 0), 3), [a, b], x, o)
  {
    GroupBits(a, b, 0, o);
    ThreeDigitsBits(Group(a, b, 0), x);
    TwoBits(a, b, o);
    ZeroBits(o);
    assert (Bits(a, o) + Bits(b, o) + Zeros(o))[..18] == Bits(a, o) + Bits(b, o) + Zeros(2);
  }

  /** The output carries the input's bits in order, six to a character, most significant first, and
      zeros to fill the last one: section 4 of RFC 4648. */
  lemma EncodeBits(bytes: seq<Octet>)
    ensures 6 * |Encode(bytes)| >= 8 * |bytes|
    ensures BitString(SymbolValues(Encode(bytes)), 6)
         == BitString(bytes, 8) + Zeros(6 * |Encode(bytes)| - 8 * |bytes|)
  {
    EncodeCarries(bytes, 6, 8);
  }
}
