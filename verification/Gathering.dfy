/** Sums of multisets over the marked positions of a sequence. */
module Gathering {

  ghost function Sum<T>(parts: seq<multiset<T>>): multiset<T> {
    if parts == [] then multiset{}
    else Sum(parts[..|parts| - 1]) + parts[|parts| - 1]
  }

  ghost function Gathered<T>(parts: seq<multiset<T>>, marks: seq<bool>): multiset<T>
    requires |parts| == |marks|
  {
    if marks == [] then multiset{} else
    var last := |marks| - 1;
    Gathered(parts[..last], marks[..last]) + if marks[last] then parts[last] else multiset{}
  }

  lemma SumGrows<T>(parts: seq<multiset<T>>, i: nat)
    requires i < |parts|
    ensures Sum(parts[..i + 1]) == Sum(parts[..i]) + parts[i]
  {
    assert parts[..i + 1][..i] == parts[..i];
  }

  lemma {:induction false} MarkOne<T>(parts: seq<multiset<T>>, marks: seq<bool>, i: nat)
    requires |parts| == |marks| && i < |marks| && !marks[i]
    ensures Gathered(parts, marks[i := true]) == Gathered(parts, marks) + parts[i]
  {
    var last := |marks| - 1;
    if i == last {
      assert marks[i := true][..last] == marks[..last];
    } else {
      MarkOne(parts[..last], marks[..last], i);
      assert marks[i := true][..last] == marks[..last][i := true];
    }
  }

  lemma {:induction false} NoneMarked<T>(parts: seq<multiset<T>>, marks: seq<bool>)
    requires |parts| == |marks| && forall i :: 0 <= i < |marks| && marks[i] ==> parts[i] == multiset{}
    ensures Gathered(parts, marks) == multiset{}
  {
    if marks != [] {
      NoneMarked(parts[..|marks| - 1], marks[..|marks| - 1]);
    }
  }

  lemma {:induction false} AllMarked<T>(parts: seq<multiset<T>>, marks: seq<bool>)
    requires |parts| == |marks| && forall i :: 0 <= i < |marks| ==> marks[i]
    ensures Gathered(parts, marks) == Sum(parts)
  {
    if marks != [] {
      AllMarked(parts[..|marks| - 1], marks[..|marks| - 1]);
    }
  }

  lemma {:induction false} GatheredIsMarked<T>(parts: seq<multiset<T>>, marks: seq<bool>, x: T) returns (i: nat)
    requires |parts| == |marks| && x in Gathered(parts, marks)
    ensures i < |marks| && marks[i] && x in parts[i]
  {
    i := |marks| - 1;
    if !(marks[i] && x in parts[i]) {
      i := GatheredIsMarked(parts[..i], marks[..i], x);
    }
  }

  /** The elements of a sequence as one-element parts. */
  ghost function Singles<T>(s: seq<T>): (r: seq<multiset<T>>)
    ensures |r| == |s|
  {
    seq(|s|, i requires 0 <= i < |s| => multiset{s[i]})
  }

  lemma {:induction false} SumOfSingles<T>(s: seq<T>)
    ensures Sum(Singles(s)) == multiset(s)
  {
    if s != [] {
      var last := |s| - 1;
      SumOfSingles(s[..last]);
      assert Singles(s)[..last] == Singles(s[..last]);
      assert s == s[..last] + [s[last]];
    }
  }
}
