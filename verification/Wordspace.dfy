/**
 The two canonical word lists (aether-identity/wordspace.js): 256 root-affix tokens, and 2048 tokens
 that add one of eight subtones.
 */
module Wordspace {

  const ROOTS: seq<string> := [
    "esu", "sango", "ogun", "oya", "yemoja", "osun", "obatala", "orunmila",
    "egungun", "ori", "ile", "omi", "ina", "afeefe", "igi", "irawo"]

  const AFFIXES: seq<string> := [
    "gate", "volt", "forge", "stream", "tide", "veil", "crown", "mirror",
    "path", "seal", "code", "sigil", "drum", "thunder", "river", "dawn"]

  const SUBTONES: seq<string> := [
    "alpha", "beta", "gamma", "delta", "epsilon", "zeta", "eta", "theta"]

  function Base256(i: nat): string
    requires i < 256
  {
    ROOTS[i / 16] + ['-'] + AFFIXES[i % 16]
  }

  function Exp2048(i: nat): string
    requires i < 2048
  {
    Base256(i / 8) + ['~'] + SUBTONES[i % 8]
  }

  predicate TokenChar(c: char) {
    'a' <= c <= 'z' || '0' <= c <= '9' || c == '~' || c == '-'
  }

  predicate LetterWord(w: string) {
    w != [] && forall i :: 0 <= i < |w| ==> 'a' <= w[i] <= 'z'
  }

  ghost predicate Distinct(words: seq<string>) {
    forall i, j :: 0 <= i < j < |words| ==> words[i] != words[j]
  }

  lemma PartsAreLetters()
    ensures forall i :: 0 <= i < |ROOTS| ==> LetterWord(ROOTS[i])
    ensures forall i :: 0 <= i < |AFFIXES| ==> LetterWord(AFFIXES[i])
    ensures forall i :: 0 <= i < |SUBTONES| ==> LetterWord(SUBTONES[i])
  {
  }

  lemma RootsAreDistinct()
    ensures Distinct(ROOTS)
  {
  }

  lemma AffixesAreDistinct()
    ensures Distinct(AFFIXES)
  {
  }

  lemma SubtonesAreDistinct()
    ensures Distinct(SUBTONES)
  {
  }

  /** A separator that occurs in neither left part makes joining reversible. */
  lemma JoinIsInjective(a: string, b: string, a': string, b': string, sep: char)
    requires sep !in a && sep !in a'
    requires a + [sep] + b == a' + [sep] + b'
    ensures a == a' && b == b'
  {
    var s := a + [sep] + b;
    assert s[|a|] == sep && s[|a'|] == sep;
    assert a == s[..|a|] && a' == s[..|a'|];
    assert b == s[|a| + 1..] && b' == s[|a'| + 1..];
  }

  lemma Base256IsInjective(i: nat, j: nat)
    requires i < 256 && j < 256 && Base256(i) == Base256(j)
    ensures i == j
  {
    PartsAreLetters();
    RootsAreDistinct();
    AffixesAreDistinct();
    JoinIsInjective(ROOTS[i / 16], AFFIXES[i % 16], ROOTS[j / 16], AFFIXES[j % 16], '-');
  }

  lemma Base256Chars(i: nat)
    requires i < 256
    ensures Base256(i) != []
    ensures forall k :: 0 <= k < |Base256(i)| ==> TokenChar(Base256(i)[k]) && Base256(i)[k] != '~'
  {
    PartsAreLetters();
  }

  lemma Exp2048IsInjective(i: nat, j: nat)
    requires i < 2048 && j < 2048 && Exp2048(i) == Exp2048(j)
    ensures i == j
  {
    Base256Chars(i / 8);
    Base256Chars(j / 8);
    SubtonesAreDistinct();
    JoinIsInjective(Base256(i / 8), SUBTONES[i % 8], Base256(j / 8), SUBTONES[j % 8], '~');
    Base256IsInjective(i / 8, j / 8);
  }

  lemma Exp2048Chars(i: nat)
    requires i < 2048
    ensures Exp2048(i) != []
    ensures forall k :: 0 <= k < |Exp2048(i)| ==> TokenChar(Exp2048(i)[k])
  {
    Base256Chars(i / 8);
    PartsAreLetters();
  }

  // ---- The lists as they are built ----

  function JoinedTo(left: string, sep: char, rights: seq<string>): seq<string> {
    seq(|rights|, i requires 0 <= i < |rights| => left + [sep] + rights[i])
  }

  /** Every left part in turn, joined to every right part in turn. */
  function AllJoined(lefts: seq<string>, sep: char, rights: seq<string>): seq<string> {
    if lefts == [] then [] else JoinedTo(lefts[0], sep, rights) + AllJoined(lefts[1..], sep, rights)
  }

  lemma {:induction false} AllJoinedAt(lefts: seq<string>, sep: char, rights: seq<string>, k: nat, j: nat)
    requires k < |lefts| && j < |rights|
    ensures k * |rights| + j < |AllJoined(lefts, sep, rights)| == |lefts| * |rights|
    ensures AllJoined(lefts, sep, rights)[k * |rights| + j] == lefts[k] + [sep] + rights[j]
  {
    AllJoinedLength(lefts, sep, rights);
    AllJoinedLength(lefts[1..], sep, rights);
    var n := |rights|;
    if k == 0 {
      assert 0 * n + j == j;
    } else {
      AllJoinedAt(lefts[1..], sep, rights, k - 1, j);
      assert k * n + j == ((k - 1) * n + j) + n;
    }
  }

  lemma {:induction false} AllJoinedLength(lefts: seq<string>, sep: char, rights: seq<string>)
    ensures |AllJoined(lefts, sep, rights)| == |lefts| * |rights|
  {
    if lefts == [] {
    } else {
      AllJoinedLength(lefts[1..], sep, rights);
      assert |lefts| * |rights| == |lefts[1..]| * |rights| + |rights|;
    }
  }

  /** The canonical list: each root with each affix. */
  function List256(): seq<string> {
    AllJoined(ROOTS, '-', AFFIXES)
  }

  /** The expanded list: each canonical token with each subtone. */
  function List2048(): seq<string> {
    AllJoined(List256(), '~', SUBTONES)
  }

  lemma Base256IsListed(i: nat)
    requires i < 256
    ensures |List256()| == 256 && List256()[i] == Base256(i)
  {
    hide AllJoined;
    AllJoinedAt(ROOTS, '-', AFFIXES, i / 16, i % 16);
  }

  lemma Exp2048IsListed(i: nat)
    requires i < 2048
    ensures |List2048()| == 2048 && List2048()[i] == Exp2048(i)
  {
    hide AllJoined;
    Base256IsListed(i / 8);
    AllJoinedAt(List256(), '~', SUBTONES, i / 8, i % 8);
  }

  /** Two canonical tokens share what comes before the dash exactly when they are in the same block of sixteen. */
  lemma SameRootIff(i: nat, j: nat)
    requires i < 256 && j < 256
    ensures (exists root, a, b :: '-' !in root && Base256(i) == root + ['-'] + a && Base256(j) == root + ['-'] + b)
       <==> i / 16 == j / 16
  {
    PartsAreLetters();
    RootsAreDistinct();
    forall root, a, b | '-' !in root && Base256(i) == root + ['-'] + a && Base256(j) == root + ['-'] + b
      ensures i / 16 == j / 16
    {
      JoinIsInjective(ROOTS[i / 16], AFFIXES[i % 16], root, a, '-');
      JoinIsInjective(ROOTS[j / 16], AFFIXES[j % 16], root, b, '-');
    }
    if i / 16 == j / 16 {
      var root, a, b := ROOTS[i / 16], AFFIXES[i % 16], AFFIXES[j % 16];
      assert '-' !in root && Base256(i) == root + ['-'] + a && Base256(j) == root + ['-'] + b;
    }
  }

  /** And what comes after it exactly when they are a multiple of sixteen apart. */
  lemma SameAffixIff(i: nat, j: nat)
    requires i < 256 && j < 256
    ensures (exists affix, a, b ::
               '-' !in a && '-' !in b && Base256(i) == a + ['-'] + affix && Base256(j) == b + ['-'] + affix)
       <==> i % 16 == j % 16
  {
    PartsAreLetters();
    AffixesAreDistinct();
    forall affix, a, b
      | '-' !in a && '-' !in b && Base256(i) == a + ['-'] + affix && Base256(j) == b + ['-'] + affix
      ensures i % 16 == j % 16
    {
      JoinIsInjective(ROOTS[i / 16], AFFIXES[i % 16], a, affix, '-');
      JoinIsInjective(ROOTS[j / 16], AFFIXES[j % 16], b, affix, '-');
    }
    if i % 16 == j % 16 {
      var affix, a, b := AFFIXES[i % 16], ROOTS[i / 16], ROOTS[j / 16];
      assert '-' !in a && '-' !in b && Base256(i) == a + ['-'] + affix && Base256(j) == b + ['-'] + affix;
    }
  }
}
