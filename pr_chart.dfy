/**
 * The pull-request chart of the docs page: the bar labels are the authors in the
 * order they first appear, and the bar heights come from a dictionary that a
 * `reduce` fills one author at a time.
 */
module PrChart {
  /** One record of the chart's data file. */
  datatype PullRequest = PullRequest(author: string)

  function Authors(prs: seq<PullRequest>): (names: seq<string>)
    ensures |names| == |prs| && forall i :: 0 <= i < |prs| ==> names[i] == prs[i].author
  {
    seq(|prs|, i requires 0 <= i < |prs| => prs[i].author)
  }

  /** `Array.from(new Set(s))`: each element once, kept where it was first inserted. */
  function Distinct(s: seq<string>): seq<string>
    decreases |s|
  {
    if s == [] then []
    else
      var d := Distinct(s[..|s| - 1]);
      if s[|s| - 1] in d then d else d + [s[|s| - 1]]
  }

  predicate NoDuplicates(s: seq<string>) {
    forall i, j :: 0 <= i < j < |s| ==> s[i] != s[j]
  }

  /** Where `x` first occurs in `s`. */
  function FirstIndex(s: seq<string>, x: string): (r: nat)
    requires x in s
    ensures r < |s| && s[r] == x
    ensures forall k :: 0 <= k < r ==> s[k] != x
  {
    if s[0] == x then 0 else 1 + FirstIndex(s[1..], x)
  }

  /** The labels hold every author once, and only authors. */
  lemma {:induction false} DistinctKeepsElements(s: seq<string>)
    ensures NoDuplicates(Distinct(s))
    ensures forall x :: x in Distinct(s) <==> x in s
    decreases |s|
  {
    if s != [] {
      var init := s[..|s| - 1];
      DistinctKeepsElements(init);
      assert s == init + [s[|s| - 1]];
    }
  }

  /** The elements of `d` occur in `s`, and earlier in `d` means first occurring earlier in `s`. */
  predicate InFirstOccurrenceOrder(d: seq<string>, s: seq<string>) {
    forall i, j :: 0 <= i < j < |d| ==> d[i] in s && d[j] in s && FirstIndex(s, d[i]) < FirstIndex(s, d[j])
  }

  /** The labels come in the order in which the authors first occur. */
  lemma {:induction false} DistinctInFirstOccurrenceOrder(s: seq<string>)
    ensures InFirstOccurrenceOrder(Distinct(s), s)
    decreases |s|
  {
    DistinctKeepsElements(s);
    if s != [] {
      var init, last := s[..|s| - 1], s[|s| - 1];
      var d := Distinct(init);
      DistinctInFirstOccurrenceOrder(init);
      DistinctKeepsElements(init);
      forall x | x in init
        ensures FirstIndex(s, x) == FirstIndex(init, x)
      {
        var k := FirstIndex(init, x);
        assert s[k] == x;
      }
      var r := Distinct(s);
      forall i, j | 0 <= i < j < |r|
        ensures FirstIndex(s, r[i]) < FirstIndex(s, r[j])
      {
        if last in d {
          assert r == d;
          assert InFirstOccurrenceOrder(d, init);
          assert FirstIndex(init, d[i]) < FirstIndex(init, d[j]);
        } else if j == |d| {
          assert r == d + [last];
          assert r[i] == d[i] && d[i] in init && last !in init;
          assert forall k :: 0 <= k < |init| ==> s[k] == init[k];
          assert FirstIndex(s, last) == |init|;
        } else {
          assert r == d + [last];
          assert r[i] == d[i] && r[j] == d[j];
          assert InFirstOccurrenceOrder(d, init);
          assert FirstIndex(init, d[i]) < FirstIndex(init, d[j]);
        }
      }
    }
  }

  /** The dictionary after `acc[a] = (acc[a] || 0) + 1` for each `a` of `s`, first to last. */
  function Tally(s: seq<string>): map<string, nat>
    decreases |s|
  {
    if s == [] then map[]
    else
      var t := Tally(s[..|s| - 1]);
      var a := s[|s| - 1];
      t[a := (if a in t then t[a] else 0) + 1]
  }

  /** The dictionary's keys are the elements counted, and each value is how often its key occurs. */
  lemma {:induction false} TallyCounts(s: seq<string>)
    ensures forall a :: a in Tally(s) <==> a in s
    ensures forall a :: a in Tally(s) ==> Tally(s)[a] == multiset(s)[a]
    decreases |s|
  {
    if s != [] {
      var init, last := s[..|s| - 1], s[|s| - 1];
      TallyCounts(init);
      assert s == init + [last];
      assert multiset(s) == multiset(init) + multiset{last};
    }
  }

  /** The `reduce` over `names`, as a loop updating the dictionary. */
  method CountAll(names: seq<string>) returns (acc: map<string, nat>)
    ensures acc == Tally(names)
    ensures forall a :: a in acc <==> a in names
    ensures forall a :: a in acc ==> acc[a] == multiset(names)[a]
  {
    acc := map[];
    var i := 0;
    while i < |names|
      invariant 0 <= i <= |names|
      invariant acc == Tally(names[..i])
    {
      var a := names[i];
      acc := acc[a := (if a in acc then acc[a] else 0) + 1];
      assert names[..i + 1][..i] == names[..i];
      i := i + 1;
    }
    assert names[..|names|] == names;
    TallyCounts(names);
  }

  /** In a list without repeats every element occurs once. */
  lemma {:induction false} NoDuplicatesCountOnce(s: seq<string>)
    requires NoDuplicates(s)
    ensures forall x :: x in s ==> multiset(s)[x] == 1
  {
    if s != [] {
      NoDuplicatesCountOnce(s[1..]);
      assert s == [s[0]] + s[1..];
      assert s[0] !in s[1..];
    }
  }

  /** `Object.values(countsPerAuthor)` in label order. */
  function Heights(labels: seq<string>, counts: map<string, nat>): (data: seq<nat>)
    requires forall a :: a in labels ==> a in counts
    ensures |data| == |labels|
  {
    seq(|labels|, i requires 0 <= i < |labels| => counts[labels[i]])
  }

  /**
   * As written: the dictionary is filled from the deduplicated labels, so every bar
   * has height 1 whatever the number of pull requests.
   */
  method ChartAsWritten(prs: seq<PullRequest>) returns (labels: seq<string>, data: seq<nat>)
    ensures labels == Distinct(Authors(prs))
    ensures |data| == |labels|
    ensures forall i :: 0 <= i < |data| ==> data[i] == 1
  {
    labels := Distinct(Authors(prs));
    DistinctKeepsElements(Authors(prs));
    var acc := CountAll(labels);
    NoDuplicatesCountOnce(labels);
    data := Heights(labels, acc);
  }

  /** Two pull requests by the same author are drawn as a bar of height 1. */
  lemma ChartAsWrittenUndercounts()
    ensures var names := Authors([PullRequest("a"), PullRequest("a")]);
      && Distinct(names) == ["a"]
      && Tally(Distinct(names)) == map["a" := 1]
      && multiset(names)["a"] == 2
  {
    var names := Authors([PullRequest("a"), PullRequest("a")]);
    assert names == ["a", "a"];
    assert names[..1] == ["a"];
    assert Distinct(names[..1]) == ["a"] by {
      assert names[..1][..0] == [];
    }
    assert ["a"][..0] == [];
  }

  /**
   * Corrected: the dictionary is filled from every pull request's author, so each
   * bar is the number of pull requests of its label's author.
   */
  method Chart(prs: seq<PullRequest>) returns (labels: seq<string>, data: seq<nat>)
    ensures labels == Distinct(Authors(prs))
    ensures NoDuplicates(labels) && InFirstOccurrenceOrder(labels, Authors(prs))
    ensures forall a :: a in labels <==> exists i :: 0 <= i < |prs| && prs[i].author == a
    ensures |data| == |labels|
    ensures forall i :: 0 <= i < |data| ==> data[i] == multiset(Authors(prs))[labels[i]] && data[i] >= 1
  {
    var names := Authors(prs);
    labels := Distinct(names);
    DistinctKeepsElements(names);
    DistinctInFirstOccurrenceOrder(names);
    var acc := CountAll(names);
    data := Heights(labels, acc);
    forall a | a in labels
      ensures exists i :: 0 <= i < |prs| && prs[i].author == a
    {
      var i :| 0 <= i < |names| && names[i] == a;
      assert prs[i].author == a;
    }
  }
}
