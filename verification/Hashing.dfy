// src/shared/security.rs: the keyed hash behind stored tokens and codes.
module Hashing {

  const NUL: char := '\0'

  ghost predicate Injective(h: string -> string) {
    forall a, b :: h(a) == h(b) ==> a == b
  }

  /** SHA-256 in hexadecimal, as an ideal hash: different inputs have different digests, and
      nothing else about it is used. */
  type Digest = h: string -> string | Injective(h) witness s => s

  /** The secret that keys the hash, with the hash it keys. */
  datatype Secret = Secret(text: string, sha256Hex: Digest)

  /** What the loop over `segments` feeds to the hasher after the secret. */
  function Feed(segments: seq<string>): string {
    if segments == [] then "" else [NUL] + segments[0] + Feed(segments[1..])
  }

  function HashSegments(secret: Secret, segments: seq<string>): string {
    secret.sha256Hex(secret.text + Feed(segments))
  }

  /** The hasher loop: one separator and one segment per iteration. */
  method ComputeHashSegments(secret: Secret, segments: seq<string>) returns (digest: string)
    ensures digest == HashSegments(secret, segments)
  {
    var hasher := secret.text;
    for i := 0 to |segments|
      invariant hasher == secret.text + Feed(segments[..i])
    {
      FeedAppend(segments[..i], segments[i]);
      assert segments[..i + 1] == segments[..i] + [segments[i]];
      hasher := hasher + [NUL];
      hasher := hasher + segments[i];
    }
    assert segments[..|segments|] == segments;
    digest := secret.sha256Hex(hasher);
  }

  lemma {:induction false} FeedAppend(segments: seq<string>, last: string)
    ensures Feed(segments + [last]) == Feed(segments) + [NUL] + last
  {
    if segments == [] {
      assert [last][1..] == [];
    } else {
      FeedAppend(segments[1..], last);
      assert (segments + [last])[1..] == segments[1..] + [last];
    }
  }

  ghost predicate NulFree(segment: string) {
    forall i :: 0 <= i < |segment| ==> segment[i] != NUL
  }

  /** Empty, or starting with the separator: what may follow a segment. */
  ghost predicate IsTail(rest: string) {
    rest == "" || rest[0] == NUL
  }

  /** Two NUL-free segments followed by tails can only be cut in one place. */
  lemma CutAtSeparator(a: string, u: string, b: string, v: string)
    requires NulFree(a) && NulFree(b) && IsTail(u) && IsTail(v)
    requires a + u == b + v
    ensures a == b && u == v
  {
    var w := a + u;
    assert |a| < |w| ==> w[|a|] == NUL;
    assert |b| < |w| ==> w[|b|] == NUL;
    if |a| < |b| {
      assert false;
    } else if |b| < |a| {
      assert false;
    } else {
      assert a == (a + u)[..|a|] == (b + v)[..|b|] == b;
      assert u == (a + u)[|a|..] == (b + v)[|b|..] == v;
    }
  }

  /** For equally many segments with every one but the last NUL-free, equal digests mean equal
      segment lists. The last segment (the token or the code a client sends) is arbitrary. */
  lemma {:induction false} FeedInjective(xs: seq<string>, ys: seq<string>)
    requires |xs| == |ys|
    requires forall i :: 0 <= i < |xs| - 1 ==> NulFree(xs[i]) && NulFree(ys[i])
    requires Feed(xs) == Feed(ys)
    ensures xs == ys
  {
    if |xs| == 1 {
      assert Feed(xs) == [NUL] + xs[0] && Feed(ys) == [NUL] + ys[0];
      assert xs[0] == Feed(xs)[1..] == Feed(ys)[1..] == ys[0];
    } else if |xs| > 1 {
      var u, v := Feed(xs[1..]), Feed(ys[1..]);
      assert Feed(xs) == [NUL] + (xs[0] + u) && Feed(ys) == [NUL] + (ys[0] + v);
      assert xs[0] + u == Feed(xs)[1..] == Feed(ys)[1..] == ys[0] + v;
      CutAtSeparator(xs[0], u, ys[0], v);
      FeedInjective(xs[1..], ys[1..]);
      assert xs == [xs[0]] + xs[1..] && ys == [ys[0]] + ys[1..];
    }
  }

  lemma HashSegmentsInjective(secret: Secret, xs: seq<string>, ys: seq<string>)
    requires |xs| == |ys|
    requires forall i :: 0 <= i < |xs| - 1 ==> NulFree(xs[i]) && NulFree(ys[i])
    ensures HashSegments(secret, xs) == HashSegments(secret, ys) <==> xs == ys
  {
    if HashSegments(secret, xs) == HashSegments(secret, ys) {
      var n, key := |secret.text|, secret.text;
      assert Feed(xs) == (key + Feed(xs))[n..] == (key + Feed(ys))[n..] == Feed(ys);
      FeedInjective(xs, ys);
    }
  }

  /** The purpose tag in front separates the uses of the hash: whatever follows two different
      NUL-free tags, the digests differ. */
  lemma PurposesNeverCollide(secret: Secret, tag: string, xs: seq<string>, tag': string, ys: seq<string>)
    requires NulFree(tag) && NulFree(tag') && tag != tag'
    ensures HashSegments(secret, [tag] + xs) != HashSegments(secret, [tag'] + ys)
  {
    var u, v := Feed(xs), Feed(ys);
    assert ([tag] + xs)[1..] == xs && ([tag'] + ys)[1..] == ys;
    assert Feed([tag] + xs) == [NUL] + (tag + u) && Feed([tag'] + ys) == [NUL] + (tag' + v);
    if HashSegments(secret, [tag] + xs) == HashSegments(secret, [tag'] + ys) {
      var n, key := |secret.text|, secret.text;
      assert (key + Feed([tag] + xs))[n..] == (key + Feed([tag'] + ys))[n..];
      assert Feed([tag] + xs)[1..] == tag + u && Feed([tag'] + ys)[1..] == tag' + v;
      CutAtSeparator(tag, u, tag', v);
    }
  }

  /** The count of segments is needed: a NUL inside a last segment reads as a separator. */
  lemma CountMatters(secret: Secret)
    ensures HashSegments(secret, ["a", "b"]) == HashSegments(secret, [['a', NUL, 'b']])
  {
    FeedTwo("a", "b");
    FeedOne(['a', NUL, 'b']);
    assert Feed(["a", "b"]) == Feed([['a', NUL, 'b']]);
  }

  /** Absence of NUL in all segments but the last is needed too: with as many segments on both
      sides, a NUL moves the boundary between two of them. */
  lemma NulInSegmentCollides(secret: Secret)
    ensures HashSegments(secret, [['a', NUL, 'b'], "c"]) == HashSegments(secret, ["a", ['b', NUL, 'c']])
  {
    FeedTwo(['a', NUL, 'b'], "c");
    FeedTwo("a", ['b', NUL, 'c']);
    assert Feed([['a', NUL, 'b'], "c"]) == Feed(["a", ['b', NUL, 'c']]);
  }

  lemma FeedOne(a: string)
    ensures Feed([a]) == [NUL] + a
  {
    assert [a][1..] == [];
  }

  lemma FeedTwo(a: string, b: string)
    ensures Feed([a, b]) == [NUL] + a + [NUL] + b
  {
    assert [a, b][1..] == [b];
    FeedOne(b);
  }

  // ---- the three uses of the hash that reach the token and code tables ----

  const ID_LENGTH: nat := 36

  /** A token id in its canonical text form. */
  predicate IsIdText(id: string) {
    |id| == ID_LENGTH
  }

  function HashRefreshToken(secret: Secret, token: string): string {
    HashSegments(secret, ["refresh_token", token])
  }

  function BuildRefreshSessionToken(secret: Secret, id: string): string {
    id + "." + HashSegments(secret, ["refresh_session_token", id])
  }

  function HashVerificationCode(secret: Secret, purpose: string, email: string, code: string): string {
    HashSegments(secret, ["email_verification", purpose, email, code])
  }

  lemma RefreshTokenHashInjective(secret: Secret, t: string, t': string)
    ensures HashRefreshToken(secret, t) == HashRefreshToken(secret, t') <==> t == t'
  {
    var xs, ys := ["refresh_token", t], ["refresh_token", t'];
    assert NulFree(xs[0]) && xs[1] == t && ys[1] == t';
    HashSegmentsInjective(secret, xs, ys);
  }

  lemma SessionTokenInjective(secret: Secret, id: string, id': string)
    requires IsIdText(id) && IsIdText(id')
    ensures BuildRefreshSessionToken(secret, id) == BuildRefreshSessionToken(secret, id') <==> id == id'
  {
    assert id == BuildRefreshSessionToken(secret, id)[..ID_LENGTH];
    assert id' == BuildRefreshSessionToken(secret, id')[..ID_LENGTH];
  }

  /** For one purpose and address, a stored code hash is matched by the issued code and no other. */
  lemma CodeHashInjective(secret: Secret, purpose: string, email: string, code: string, code': string)
    requires NulFree(purpose) && NulFree(email)
    ensures HashVerificationCode(secret, purpose, email, code) == HashVerificationCode(secret, purpose, email, code')
       <==> code == code'
  {
    var xs := ["email_verification", purpose, email, code];
    var ys := ["email_verification", purpose, email, code'];
    assert NulFree(xs[0]) && xs[3] == code && ys[3] == code';
    HashSegmentsInjective(secret, xs, ys);
  }
}
