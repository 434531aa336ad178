/**
 The word-list Merkle root (aether-identity/wordspace.js). The hash is a parameter; the uniqueness theorem
 assumes only that it does not collide on the strings hashed while computing the two roots.
 */
module Merkle {
  import opened Bits
  import opened Wrappers

  type Bytes = seq<byte>
  type Hash = Bytes -> Bytes

  datatype Error = EmptyWordlist

  function Leaves(slugs: seq<Bytes>, sha: Hash): (r: seq<Bytes>)
    ensures |r| == |slugs|
  {
    seq(|slugs|, i requires 0 <= i < |slugs| => sha(slugs[i]))
  }

  /** An odd level repeats its last node. */
  function Evened(level: seq<Bytes>): (r: seq<Bytes>)
    requires level != []
    ensures |r| % 2 == 0
  {
    if |level| % 2 == 1 then level + [level[|level| - 1]] else level
  }

  function Pair(level: seq<Bytes>, i: nat): Bytes
    requires 2 * i + 1 < |level|
  {
    level[2 * i] + level[2 * i + 1]
  }

  function Paired(level: seq<Bytes>, sha: Hash): (r: seq<Bytes>)
    ensures |r| == |level| / 2
  {
    seq(|level| / 2, i requires 0 <= i < |level| / 2 => sha(Pair(level, i)))
  }

  function NextLevel(level: seq<Bytes>, sha: Hash): (r: seq<Bytes>)
    requires level != []
    ensures |r| == (|level| + 1) / 2
  {
    Paired(Evened(level), sha)
  }

  function Reduced(level: seq<Bytes>, sha: Hash): Bytes
    requires level != []
    decreases |level|
  {
    if |level| == 1 then level[0] else Reduced(NextLevel(level, sha), sha)
  }

  function Root(slugs: seq<Bytes>, sha: Hash): Bytes
    requires slugs != []
  {
    Reduced(Leaves(slugs, sha), sha)
  }

  method MerkleRoot(slugs: seq<Bytes>, sha: Hash) returns (r: Result<Bytes, Error>)
    ensures r == if slugs == [] then Err(EmptyWordlist) else Ok(Root(slugs, sha))
  {
    var level := [];
    for i := 0 to |slugs|
      invariant level == Leaves(slugs, sha)[..i]
    {
      level := level + [sha(slugs[i])];
    }
    assert level == Leaves(slugs, sha);
    if |level| == 0 {
      return Err(EmptyWordlist);
    }
    while |level| > 1
      invariant level != [] && Reduced(level, sha) == Root(slugs, sha)
      decreases |level|
    {
      ghost var before := level;
      if |level| % 2 == 1 {
        level := level + [level[|level| - 1]];
      }
      assert level == Evened(before);
      level := PairLevel(level, sha);
    }
    r := Ok(level[0]);
  }

  method PairLevel(level: seq<Bytes>, sha: Hash) returns (next: seq<Bytes>)
    requires |level| % 2 == 0
    ensures next == Paired(level, sha)
  {
    next := [];
    var i := 0;
    while i < |level|
      invariant i % 2 == 0 && 0 <= i <= |level|
      invariant next == Paired(level, sha)[..i / 2]
    {
      assert level[i] + level[i + 1] == Pair(level, i / 2);
      next := next + [sha(level[i] + level[i + 1])];
      i := i + 2;
    }
  }

  // ---- The tree the loop computes ----

  /** The number of nodes `height` levels above `n` leaves. */
  function Width(n: nat, height: nat): nat {
    if height == 0 then n else (Width(n, height - 1) + 1) / 2
  }

  lemma {:induction false} WidthPositive(n: nat, height: nat)
    requires n > 0
    ensures Width(n, height) > 0
  {
    if height == 0 {
    } else {
      WidthPositive(n, height - 1);
    }
  }

  /** Node `i`, `height` levels up: the hash of its two children, a missing right child being the left one again. */
  function Node(slugs: seq<Bytes>, sha: Hash, height: nat, i: nat): Bytes
    requires i < Width(|slugs|, height)
    decreases height
  {
    if height == 0 then sha(slugs[i])
    else
      var left := 2 * i;
      var right := if left + 1 < Width(|slugs|, height - 1) then left + 1 else left;
      sha(Node(slugs, sha, height - 1, left) + Node(slugs, sha, height - 1, right))
  }

  ghost predicate IsLevel(level: seq<Bytes>, slugs: seq<Bytes>, sha: Hash, height: nat) {
    && |level| == Width(|slugs|, height)
    && forall i :: 0 <= i < |level| ==> level[i] == Node(slugs, sha, height, i)
  }

  lemma NextIsLevel(level: seq<Bytes>, slugs: seq<Bytes>, sha: Hash, height: nat)
    requires level != [] && IsLevel(level, slugs, sha, height)
    ensures IsLevel(NextLevel(level, sha), slugs, sha, height + 1)
  {
    var next := NextLevel(level, sha);
    forall i | 0 <= i < |next| ensures next[i] == Node(slugs, sha, height + 1, i) {
      var right := if 2 * i + 1 < |level| then 2 * i + 1 else 2 * i;
      assert Pair(Evened(level), i) == level[2 * i] + level[right];
      assert level[2 * i] == Node(slugs, sha, height, 2 * i) && level[right] == Node(slugs, sha, height, right);
    }
  }

  lemma {:induction false} ReducedIsTree(level: seq<Bytes>, slugs: seq<Bytes>, sha: Hash, height: nat)
    returns (top: nat)
    requires level != [] && IsLevel(level, slugs, sha, height)
    ensures top >= height && Width(|slugs|, top) == 1
    ensures forall h :: height <= h < top ==> Width(|slugs|, h) > 1
    ensures Reduced(level, sha) == Node(slugs, sha, top, 0)
    decreases |level|
  {
    if |level| == 1 {
      top := height;
    } else {
      NextIsLevel(level, slugs, sha, height);
      top := ReducedIsTree(NextLevel(level, sha), slugs, sha, height + 1);
    }
  }

  /** The loop ends with the root of the pairwise tree, at the first height that has a single node. */
  lemma RootIsTree(slugs: seq<Bytes>, sha: Hash) returns (top: nat)
    requires slugs != []
    ensures Width(|slugs|, top) == 1 && (forall h :: 0 <= h < top ==> Width(|slugs|, h) > 1)
    ensures Root(slugs, sha) == Node(slugs, sha, top, 0)
  {
    top := ReducedIsTree(Leaves(slugs, sha), slugs, sha, 0);
  }

  // ---- What the root determines ----

  /** Every string hashed from this level upwards. */
  ghost function HashedAbove(level: seq<Bytes>, sha: Hash): set<Bytes>
    requires level != []
    decreases |level|
  {
    if |level| == 1 then {}
    else
      var even := Evened(level);
      (set i | 0 <= i < |even| / 2 :: Pair(even, i)) + HashedAbove(NextLevel(level, sha), sha)
  }

  ghost function Hashed(slugs: seq<Bytes>, sha: Hash): set<Bytes>
    requires slugs != []
  {
    (set i | 0 <= i < |slugs| :: slugs[i]) + HashedAbove(Leaves(slugs, sha), sha)
  }

  ghost predicate CollisionFree(sha: Hash, inputs: set<Bytes>) {
    forall x, y :: x in inputs && y in inputs && sha(x) == sha(y) ==> x == y
  }

  ghost predicate Digests(level: seq<Bytes>) {
    forall i :: 0 <= i < |level| ==> |level[i]| == 32
  }

  lemma PairedDetermines(a: seq<Bytes>, b: seq<Bytes>, sha: Hash, inputs: set<Bytes>)
    requires |a| == |b| && |a| % 2 == 0 && Digests(a) && Digests(b)
    requires CollisionFree(sha, inputs) && Paired(a, sha) == Paired(b, sha)
    requires forall i :: 0 <= i < |a| / 2 ==> Pair(a, i) in inputs && Pair(b, i) in inputs
    ensures a == b
  {
    forall i | 0 <= i < |a| / 2 ensures a[2 * i] == b[2 * i] && a[2 * i + 1] == b[2 * i + 1] {
      assert Paired(a, sha)[i] == Paired(b, sha)[i];
      assert Pair(a, i) == Pair(b, i);
      assert a[2 * i] == Pair(a, i)[..32] && b[2 * i] == Pair(b, i)[..32];
      assert a[2 * i + 1] == Pair(a, i)[32..] && b[2 * i + 1] == Pair(b, i)[32..];
    }
    forall k | 0 <= k < |a| ensures a[k] == b[k] {
      assert k == 2 * (k / 2) || k == 2 * (k / 2) + 1;
    }
  }

  lemma {:induction false} ReducedDetermines(a: seq<Bytes>, b: seq<Bytes>, sha: Hash, inputs: set<Bytes>)
    requires |a| == |b| && a != [] && Digests(a) && Digests(b) && (forall x :: |sha(x)| == 32)
    requires HashedAbove(a, sha) <= inputs && HashedAbove(b, sha) <= inputs && CollisionFree(sha, inputs)
    requires Reduced(a, sha) == Reduced(b, sha)
    ensures a == b
    decreases |a|
  {
    if |a| == 1 {
    } else {
      ReducedDetermines(NextLevel(a, sha), NextLevel(b, sha), sha, inputs);
      var evenA, evenB := Evened(a), Evened(b);
      forall i | 0 <= i < |evenA| / 2 ensures Pair(evenA, i) in inputs && Pair(evenB, i) in inputs {
        assert Pair(evenA, i) in HashedAbove(a, sha) && Pair(evenB, i) in HashedAbove(b, sha);
      }
      PairedDetermines(evenA, evenB, sha, inputs);
      assert a == evenA[..|a|] && b == evenB[..|a|];
    }
  }

  /** Two lists of the same length with the same root are the same list. */
  lemma RootDeterminesSlugs(a: seq<Bytes>, b: seq<Bytes>, sha: Hash)
    requires |a| == |b| && a != [] && (forall x :: |sha(x)| == 32)
    requires CollisionFree(sha, Hashed(a, sha) + Hashed(b, sha))
    requires Root(a, sha) == Root(b, sha)
    ensures a == b
  {
    var inputs := Hashed(a, sha) + Hashed(b, sha);
    ReducedDetermines(Leaves(a, sha), Leaves(b, sha), sha, inputs);
    forall i | 0 <= i < |a| ensures a[i] == b[i] {
      assert Leaves(a, sha)[i] == Leaves(b, sha)[i];
      assert a[i] in inputs && b[i] in inputs;
    }
  }

  /** The equal lengths are needed: repeating the last slug of an odd list leaves the root unchanged. */
  lemma RepeatedLastSlugKeepsRoot(slugs: seq<Bytes>, sha: Hash)
    requires |slugs| > 1 && |slugs| % 2 == 1
    ensures Root(slugs + [slugs[|slugs| - 1]], sha) == Root(slugs, sha)
  {
    var longer := slugs + [slugs[|slugs| - 1]];
    assert Leaves(longer, sha) == Evened(Leaves(slugs, sha));
    assert NextLevel(Leaves(longer, sha), sha) == NextLevel(Leaves(slugs, sha), sha);
  }
}
