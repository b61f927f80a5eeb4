/** SHA-256 as the models see it: an arbitrary function to 64 hexadecimal characters. */
module Digests {
  predicate IsDigest(d: string) {
    |d| == 64 && forall i :: 0 <= i < 64 ==> '0' <= d[i] <= '9' || 'a' <= d[i] <= 'f'
  }

  type Digest = d: string | IsDigest(d) witness seq(64, _ => '0')

  /** The hash is arbitrary; theorems that need it name the texts it must tell apart. */
  type Hash = string -> Digest

  ghost predicate CollisionFree(hash: Hash, texts: set<string>) {
    forall x, y :: x in texts && y in texts && hash(x) == hash(y) ==> x == y
  }
}
