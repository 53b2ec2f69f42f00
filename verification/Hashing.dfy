/** Hash functions as parameters of the model, and the encoding that turns many hashes into one string. */
module Hashing {

  /** `line` is the keyed hash of one line's content, `aggregate` the plain hash of a whole chunk. */
  datatype Hasher = Hasher(line: string -> string, aggregate: string -> string)

  ghost predicate NewlineFree(s: string) {
    '\n' !in s
  }

  /** Hex digests hold no newline. Nothing else is assumed of the hash functions. */
  ghost predicate ProducesDigests(h: Hasher) {
    forall s :: NewlineFree(h.line(s))
  }

  /** Every hash followed by a newline: the string a chunk hash is computed from. */
  function JoinHashes(hashes: seq<string>): string {
    if hashes == [] then "" else JoinHashes(hashes[..|hashes| - 1]) + hashes[|hashes| - 1] + "\n"
  }

  lemma {:induction false} JoinHashesFront(hashes: seq<string>)
    requires hashes != []
    ensures JoinHashes(hashes) == hashes[0] + "\n" + JoinHashes(hashes[1..])
  {
    var n := |hashes|;
    if n == 1 {
      assert hashes[..0] == [] && hashes[1..] == [];
      assert JoinHashes(hashes) == "" + hashes[0] + "\n";
    } else {
      JoinHashesFront(hashes[..n - 1]);
      assert hashes[..n - 1][1..] == hashes[1..][..n - 2];
      assert hashes[1..][n - 2] == hashes[n - 1];
      var front := JoinHashes(hashes[1..][..n - 2]);
      assert JoinHashes(hashes[1..]) == front + hashes[n - 1] + "\n";
      assert (hashes[0] + "\n" + front) + hashes[n - 1] + "\n" == hashes[0] + "\n" + (front + hashes[n - 1] + "\n");
    }
  }

  lemma {:induction false} NewlineFreeHeads(a: string, b: string, s: string, t: string)
    requires NewlineFree(a) && NewlineFree(b)
    requires a + "\n" + s == b + "\n" + t
    ensures a == b && s == t
  {
    var x := a + "\n" + s;
    assert x[|a|] == '\n' && x[|b|] == '\n';
    assert forall i :: 0 <= i < |a| ==> x[i] == a[i];
    assert forall i :: 0 <= i < |b| ==> x[i] == b[i];
    assert |a| == |b|;
    assert a == x[..|a|] == b;
    assert s == x[|a| + 1..] == t;
  }

  /** The encoding under a chunk hash loses nothing: equal strings come from equal lists of hashes, even when the
      lists have different lengths. */
  lemma {:induction false} JoinHashesInjective(a: seq<string>, b: seq<string>)
    requires forall i :: 0 <= i < |a| ==> NewlineFree(a[i])
    requires forall i :: 0 <= i < |b| ==> NewlineFree(b[i])
    requires JoinHashes(a) == JoinHashes(b)
    ensures a == b
  {
    if a == [] || b == [] {
      if a != [] {
        JoinHashesFront(a);
      }
      if b != [] {
        JoinHashesFront(b);
      }
    } else {
      JoinHashesFront(a);
      JoinHashesFront(b);
      NewlineFreeHeads(a[0], b[0], JoinHashes(a[1..]), JoinHashes(b[1..]));
      JoinHashesInjective(a[1..], b[1..]);
      assert a == [a[0]] + a[1..] && b == [b[0]] + b[1..];
    }
  }
}
