/**
 SHA-256 as this model sees it: a function from text to 64 lower-case hexadecimal digits. Nothing else is assumed
 about it. Every such function has collisions, since there are more texts than digests; where the source relies on
 their not being found, the lemmas name the few texts that would have to collide: those the program has hashed itself.
 */
module Hashing {
  import opened Texts
  import Strings

  predicate IsHexDigit(u: Unit) {
    48 <= u < 58 || 97 <= u < 103
  }

  /** The test /^[a-f0-9]{64}$/ of the source. */
  predicate IsDigest(t: Text) {
    |t| == 64 && forall i :: 0 <= i < |t| ==> IsHexDigit(t[i])
  }

  type Digest = t: Text | IsDigest(t) witness seq(64, i => 48)

  type Hash = Text -> Digest

  predicate Collides(sha: Hash, x: Text, y: Text) {
    x != y && Strings.WellFormed(x) && Strings.WellFormed(y) && sha(x) == sha(y)
  }

  /** Two different texts with one digest, one from each of two sets. */
  ghost predicate CollisionAmong(sha: Hash, a: set<Text>, b: set<Text>) {
    exists x: Text, y: Text :: x in a && y in b && Collides(sha, x, y)
  }

  // ----- a collision among given texts is never a matter of course -----

  function HexText(n: nat, k: nat): (t: Text)
    ensures |t| == k && forall i :: 0 <= i < k ==> IsHexDigit(t[i])
  {
    if k == 0 then [] else HexText(n / 16, k - 1) + [if n % 16 < 10 then 48 + n % 16 else 87 + n % 16]
  }

  function PowerOf16(k: nat): nat { if k == 0 then 1 else 16 * PowerOf16(k - 1) }

  lemma {:induction false} HexTextIsInjective(m: nat, n: nat, k: nat)
    requires m < PowerOf16(k) && n < PowerOf16(k) && HexText(m, k) == HexText(n, k)
    ensures m == n
  {
    if k > 0 {
      assert HexText(m, k)[..k - 1] == HexText(m / 16, k - 1) && HexText(n, k)[..k - 1] == HexText(n / 16, k - 1);
      assert HexText(m, k)[k - 1] == HexText(n, k)[k - 1];
      HexTextIsInjective(m / 16, n / 16, k - 1);
    }
  }

  lemma {:induction false} Ranked(texts: set<Text>) returns (rank: Text -> nat)
    ensures forall x :: x in texts ==> rank(x) < |texts|
    ensures forall x, y :: x in texts && y in texts && rank(x) == rank(y) ==> x == y
    decreases |texts|
  {
    if texts == {} {
      rank := t => 0;
    } else {
      var first :| first in texts;
      var others := texts - {first};
      var earlier := Ranked(others);
      rank := t => if t == first then |others| else earlier(t);
    }
  }

  /** For any texts, as long as there are digests enough for them, some function of digests keeps them apart. */
  lemma SomeHashKeepsApart(texts: set<Text>, k: nat) returns (sha: Hash)
    requires k == 64 && |texts| <= PowerOf16(k)
    ensures !CollisionAmong(sha, texts, texts)
  {
    var rank := Ranked(texts);
    sha := t => HexText(rank(t), k);
    forall x, y | x in texts && y in texts && sha(x) == sha(y) ensures x == y {
      HexTextIsInjective(rank(x), rank(y), k);
    }
  }
}
