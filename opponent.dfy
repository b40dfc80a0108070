/**
 * The filters applied to the word-search answers: `getQbitWord` lower-cases the
 * candidates, drops the used ones and keeps the first; `getHint` drops the used
 * ones (without lower-casing) and keeps at most three.
 */
module Opponent {
  import opened Wrappers
  import opened Text

  /** At most this many hints are shown. */
  const MaxHints: nat := 3

  /** `words.map(w => w.toLowerCase())`. */
  function LowerAll(words: seq<string>): (r: seq<string>)
    ensures |r| == |words| && forall i :: 0 <= i < |words| ==> r[i] == ToLower(words[i])
  {
    if words == [] then [] else [ToLower(words[0])] + LowerAll(words[1..])
  }

  /** `words.filter(w => !used.has(w))`, order kept. */
  function Unused(words: seq<string>, used: set<string>): (r: seq<string>)
    ensures |r| <= |words|
    ensures forall w :: w in r <==> w in words && w !in used
    ensures r == [] <==> forall i :: 0 <= i < |words| ==> words[i] in used
  {
    if words == [] then []
    else if words[0] in used then Unused(words[1..], used)
    else [words[0]] + Unused(words[1..], used)
  }

  /** A single word survives the filter exactly when it is unused. */
  lemma UnusedSingle(w: string, used: set<string>)
    ensures Unused([w], used) == if w in used then [] else [w]
  {
    assert [w][1..] == [];
  }

  /** The filter works word by word: filtering a concatenation concatenates the results. */
  lemma {:induction false} UnusedAppend(a: seq<string>, b: seq<string>, used: set<string>)
    ensures Unused(a + b, used) == Unused(a, used) + Unused(b, used)
    decreases |a|
  {
    if a != [] {
      assert (a + b)[0] == a[0];
      assert (a + b)[1..] == a[1..] + b;
      UnusedAppend(a[1..], b, used);
    } else {
      assert a + b == b;
    }
  }

  /** The filter keeps the earliest unused word in front. */
  lemma {:induction false} UnusedStartsWithEarliest(words: seq<string>, used: set<string>, i: nat)
    requires i < |words| && words[i] !in used
    requires forall j :: 0 <= j < i ==> words[j] in used
    ensures Unused(words, used) != [] && Unused(words, used)[0] == words[i]
  {
    if i > 0 {
      UnusedStartsWithEarliest(words[1..], used, i - 1);
    }
  }

  /** `getQbitWord` after the lookup: the opponent's reply, or `None` for `null`. */
  function QbitWord(candidates: seq<string>, used: set<string>): (r: Option<string>)
    ensures r.None? <==> forall i :: 0 <= i < |candidates| ==> ToLower(candidates[i]) in used
    ensures r.Some? ==> r.value !in used
    ensures r.Some? ==> exists i :: 0 <= i < |candidates| && r.value == ToLower(candidates[i])
  {
    var lowered := LowerAll(candidates);
    var possible := Unused(lowered, used);
    assert forall i :: 0 <= i < |candidates| ==> lowered[i] == ToLower(candidates[i]);
    if |possible| > 0 then Some(possible[0]) else None
  }

  /** The reply is the lower-cased form of the first candidate whose lower-cased form is unused. */
  lemma QbitWordIsFirstUnused(candidates: seq<string>, used: set<string>, i: nat)
    requires i < |candidates| && ToLower(candidates[i]) !in used
    requires forall j :: 0 <= j < i ==> ToLower(candidates[j]) in used
    ensures QbitWord(candidates, used) == Some(ToLower(candidates[i]))
  {
    UnusedStartsWithEarliest(LowerAll(candidates), used, i);
  }

  /** When every candidate begins with `letter`, so does the reply. */
  lemma QbitWordKeepsLetter(candidates: seq<string>, used: set<string>, letter: char)
    requires forall i :: 0 <= i < |candidates| ==> ToLower(candidates[i]) != [] && ToLower(candidates[i])[0] == letter
    ensures QbitWord(candidates, used).Some? ==> QbitWord(candidates, used).value[0] == letter
  {
  }

  /** The `getHint` filter: the first (at most) three candidates that are not used. */
  function Hints(candidates: seq<string>, used: set<string>): (r: seq<string>)
    ensures |r| <= MaxHints
    ensures forall w :: w in r ==> w in candidates && w !in used
    ensures |r| == if |Unused(candidates, used)| < MaxHints then |Unused(candidates, used)| else MaxHints
    ensures r == Unused(candidates, used)[..|r|]
    ensures r == [] <==> forall i :: 0 <= i < |candidates| ==> candidates[i] in used
  {
    var u := Unused(candidates, used);
    if |u| <= MaxHints then u else u[..MaxHints]
  }
}
