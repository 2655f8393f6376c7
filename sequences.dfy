/** Order-preserving filtering of sequences: the `Where` step of the LINQ pipelines in the tree
    model, and the filtering that a directory enumeration with a search pattern performs. */
module Sequences {

  /** The elements of `s` for which `keep` holds, in their original order. */
  function Where<T>(s: seq<T>, keep: T -> bool): (r: seq<T>)
    ensures |r| <= |s|
    ensures forall i :: 0 <= i < |r| ==> r[i] in s && keep(r[i])
    ensures forall i :: 0 <= i < |s| && keep(s[i]) ==> s[i] in r
  {
    if s == [] then []
    else
      var init := Where(s[..|s| - 1], keep);
      assert s == s[..|s| - 1] + [s[|s| - 1]];
      if keep(s[|s| - 1]) then init + [s[|s| - 1]] else init
  }

  /** The positions of `s` whose element `keep` accepts. */
  ghost function KeptIndices<T>(s: seq<T>, keep: T -> bool): set<nat>
  {
    set i: nat | i < |s| && keep(s[i])
  }

  /** Filtering distributes over concatenation, so relative order is preserved. */
  lemma {:induction false} WhereAppend<T>(a: seq<T>, b: seq<T>, keep: T -> bool)
    ensures Where(a + b, keep) == Where(a, keep) + Where(b, keep)
  {
    if b == [] {
      assert a + b == a;
    } else {
      var b' := b[..|b| - 1];
      assert (a + b)[..|a + b| - 1] == a + b';
      assert (a + b)[|a + b| - 1] == b[|b| - 1];
      WhereAppend(a, b', keep);
    }
  }

  /** Exactly one element is kept per accepted position, duplicates included. */
  lemma {:induction false} WhereCount<T>(s: seq<T>, keep: T -> bool)
    ensures |Where(s, keep)| == |KeptIndices(s, keep)|
  {
    if s == [] {
      assert KeptIndices(s, keep) == {};
    } else {
      var last: nat := |s| - 1;
      WhereCount(s[..last], keep);
      KeptIndicesSnoc(s, keep);
    }
  }

  /** The accepted positions of `s` are those of its prefix, plus the last one if accepted. */
  lemma KeptIndicesSnoc<T>(s: seq<T>, keep: T -> bool)
    requires s != []
    ensures var last: nat := |s| - 1;
      KeptIndices(s, keep) ==
        KeptIndices(s[..last], keep) + (if keep(s[last]) then {last} else {})
  {
  }

  /** When every element is accepted nothing is dropped. */
  lemma {:induction false} WhereAll<T>(s: seq<T>, keep: T -> bool)
    requires forall i :: 0 <= i < |s| ==> keep(s[i])
    ensures Where(s, keep) == s
  {
    if s != [] {
      var init := s[..|s| - 1];
      WhereAll(init, keep);
      assert s == init + [s[|s| - 1]];
    }
  }
}
