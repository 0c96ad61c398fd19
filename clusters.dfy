/** `label_clusters`: for each distinct cluster label, in ascending order,
    the first ten feedback texts carrying it are joined into a prompt and
    summarised by the language model. The labels themselves come from
    KMeans and are an input here. */
module Clusters {
  import opened Text
  import opened Reactions

  const SummaryHeader: string := "Summarise the common theme in these snippets:\n"
  const SnippetSeparator: string := "\n---\n"
  const MaxSnippets: nat := 10

  predicate StrictlyIncreasing(xs: seq<int>) {
    forall a, b :: 0 <= a < b < |xs| ==> xs[a] < xs[b]
  }

  /** `xs` with `x` put in its place, `xs` being ascending without repeats. */
  function InsertSorted(xs: seq<int>, x: int): (r: seq<int>)
    requires StrictlyIncreasing(xs)
    ensures StrictlyIncreasing(r)
    ensures forall y :: y in r <==> y in xs || y == x
  {
    if xs == [] then [x]
    else if x < xs[0] then [x] + xs
    else if x == xs[0] then xs
    else
      assert xs == [xs[0]] + xs[1..];
      assert forall k :: 0 <= k < |xs[1..]| ==> xs[0] < xs[1..][k];
      var tail := InsertSorted(xs[1..], x);
      assert forall k :: 0 <= k < |tail| ==> xs[0] < tail[k] by {
        forall k | 0 <= k < |tail|
          ensures xs[0] < tail[k]
        {
          assert tail[k] in tail;
        }
      }
      var r := [xs[0]] + tail;
      assert StrictlyIncreasing(r) by {
        forall a, b | 0 <= a < b < |r|
          ensures r[a] < r[b]
        {
          assert r[b] == tail[b - 1];
          if a > 0 {
            assert r[a] == tail[a - 1];
          }
        }
      }
      r
  }

  /** `sorted(set(labels))`. */
  function SortedDistinct(labels: seq<int>): (r: seq<int>)
    ensures StrictlyIncreasing(r)
    ensures forall y :: y in r <==> y in labels
  {
    if labels == [] then []
    else InsertSorted(SortedDistinct(labels[..|labels| - 1]), labels[|labels| - 1])
  }

  /** An ascending sequence without repeats is determined by its elements,
      so SortedDistinct is the only order `sorted(set(labels))` can mean. */
  lemma {:induction false} SortedUnique(xs: seq<int>, ys: seq<int>)
    requires StrictlyIncreasing(xs) && StrictlyIncreasing(ys)
    requires forall y :: y in xs <==> y in ys
    ensures xs == ys
    decreases |xs|
  {
    SameElementsBothEmpty(xs, ys);
    if xs != [] {
      HeadAndTail(xs);
      HeadAndTail(ys);
      assert xs[0] in ys && ys[0] in xs;
      SortedUnique(xs[1..], ys[1..]);
      assert xs == [xs[0]] + xs[1..];
      assert ys == [ys[0]] + ys[1..];
    }
  }

  /** The head of an ascending sequence is its least element, and the tail
      holds the other elements, still ascending. */
  lemma HeadAndTail(xs: seq<int>)
    requires StrictlyIncreasing(xs) && xs != []
    ensures StrictlyIncreasing(xs[1..])
    ensures forall y :: y in xs ==> xs[0] <= y
    ensures forall y :: y in xs[1..] <==> y in xs && y != xs[0]
  {
    forall y | y in xs
      ensures xs[0] <= y
    {
      var j :| 0 <= j < |xs| && xs[j] == y;
    }
    forall y | y in xs[1..]
      ensures y in xs && y != xs[0]
    {
      var j :| 0 <= j < |xs[1..]| && xs[1..][j] == y;
      assert xs[j + 1] == y;
    }
    assert xs == [xs[0]] + xs[1..];
  }

  lemma SameElementsBothEmpty(xs: seq<int>, ys: seq<int>)
    ensures (forall y :: y in xs <==> y in ys) ==> (xs == [] <==> ys == [])
  {
    if xs != [] {
      assert (forall y :: y in xs <==> y in ys) ==> xs[0] in ys;
    }
    if ys != [] {
      assert (forall y :: y in xs <==> y in ys) ==> ys[0] in xs;
    }
  }

  function Min(a: int, b: int): int {
    if a <= b then a else b
  }

  /** The indices below `n` whose label is `lab`, in increasing order: the
      positions the comprehension `[t for t, l in zip(...) if l == lab]`
      keeps. */
  function Matching(labels: seq<int>, lab: int, n: nat): (m: seq<int>)
    requires n <= |labels|
    ensures StrictlyIncreasing(m)
    ensures forall a :: 0 <= a < |m| ==> 0 <= m[a] < n && labels[m[a]] == lab
    ensures forall i :: 0 <= i < n && labels[i] == lab ==> i in m
  {
    if n == 0 then []
    else if labels[n - 1] == lab then Matching(labels, lab, n - 1) + [n - 1]
    else Matching(labels, lab, n - 1)
  }

  /** The positions of the snippets kept for `lab`: the first ten matching
      positions of `zip(feedbacks, labels)`. */
  function SnippetIndices(feedbacks: seq<string>, labels: seq<int>, lab: int): (ix: seq<int>)
    ensures |ix| <= MaxSnippets && StrictlyIncreasing(ix)
    ensures forall a :: 0 <= a < |ix| ==> 0 <= ix[a] < |feedbacks| && ix[a] < |labels| && labels[ix[a]] == lab
  {
    var m := Matching(labels, lab, Min(|feedbacks|, |labels|));
    if |m| <= MaxSnippets then m else m[..MaxSnippets]
  }

  /** The kept snippets themselves, in input order. */
  function Snippets(feedbacks: seq<string>, labels: seq<int>, lab: int): (r: seq<string>)
    ensures var ix := SnippetIndices(feedbacks, labels, lab);
            |r| == |ix| && forall a :: 0 <= a < |r| ==> r[a] == feedbacks[ix[a]]
  {
    var ix := SnippetIndices(feedbacks, labels, lab);
    seq(|ix|, a requires 0 <= a < |ix| => feedbacks[ix[a]])
  }

  /** The kept snippets are the FIRST ones: a text with the label that was
      not kept comes after ten kept ones. So with at most ten such texts,
      all of them are kept. */
  lemma SnippetsAreFirst(feedbacks: seq<string>, labels: seq<int>, lab: int, i: int)
    requires 0 <= i < |feedbacks| && i < |labels| && labels[i] == lab
    requires i !in SnippetIndices(feedbacks, labels, lab)
    ensures |SnippetIndices(feedbacks, labels, lab)| == MaxSnippets
    ensures forall a :: 0 <= a < MaxSnippets ==> SnippetIndices(feedbacks, labels, lab)[a] < i
  {
    var m := Matching(labels, lab, Min(|feedbacks|, |labels|));
    assert i in m;
    var p :| 0 <= p < |m| && m[p] == i;
    assert p >= MaxSnippets;
  }

  /** The prompt sent for one cluster: the header, then the kept snippets
      in input order with "\n---\n" between consecutive ones. */
  function ClusterPrompt(feedbacks: seq<string>, labels: seq<int>, lab: int): (r: string)
    ensures StartsWith(r, SummaryHeader)
    ensures r[|SummaryHeader|..] == Join(SnippetSeparator, Snippets(feedbacks, labels, lab))
  {
    var r := SummaryHeader + Join(SnippetSeparator, Snippets(feedbacks, labels, lab));
    assert r[..|SummaryHeader|] == SummaryHeader;
    r
  }

  /** Every kept snippet appears in the cluster's prompt. */
  lemma PromptHasSnippets(feedbacks: seq<string>, labels: seq<int>, lab: int, a: nat)
    requires a < |Snippets(feedbacks, labels, lab)|
    ensures Contains(ClusterPrompt(feedbacks, labels, lab), Snippets(feedbacks, labels, lab)[a])
  {
    var snippets := Snippets(feedbacks, labels, lab);
    var joined := Join(SnippetSeparator, snippets);
    JoinHasParts(SnippetSeparator, snippets, a);
    ContainedRight(SummaryHeader, joined, snippets[a]);
  }

  /** Consecutive kept snippets appear in the prompt in input order, with
      exactly the separator between them. */
  lemma PromptSeparatesSnippets(feedbacks: seq<string>, labels: seq<int>, lab: int, a: nat)
    requires a + 1 < |Snippets(feedbacks, labels, lab)|
    ensures var snippets := Snippets(feedbacks, labels, lab);
            Contains(ClusterPrompt(feedbacks, labels, lab), snippets[a] + SnippetSeparator + snippets[a + 1])
  {
    var snippets := Snippets(feedbacks, labels, lab);
    JoinAdjacent(SnippetSeparator, snippets, a);
    ContainedRight(SummaryHeader, Join(SnippetSeparator, snippets), snippets[a] + SnippetSeparator + snippets[a + 1]);
  }

  /** `call_gpt([{"role": "user", "content": prompt}])`. */
  function ClusterMessages(feedbacks: seq<string>, labels: seq<int>, lab: int): seq<Message> {
    [Message("user", ClusterPrompt(feedbacks, labels, lab))]
  }

  /** One iteration of `label_clusters`: keep the label's snippets, build
      the prompt and ask the model for the theme. */
  method SummariseCluster(feedbacks: seq<string>, labels: seq<int>, lab: int, gpt: seq<Message> -> string)
    returns (summary: string)
    ensures summary == gpt(ClusterMessages(feedbacks, labels, lab))
  {
    var snippets := Snippets(feedbacks, labels, lab);
    var prompt := SummaryHeader + Join(SnippetSeparator, snippets);
    summary := gpt([Message("user", prompt)]);
  }

  /** `summaries` holds exactly the labels of `done`, each with the model's
      reply to that label's prompt. */
  ghost predicate SummarisedExactly(summaries: map<int, string>, done: seq<int>,
                                    feedbacks: seq<string>, labels: seq<int>, gpt: seq<Message> -> string) {
    && (forall l :: l in summaries <==> l in done)
    && (forall l :: l in summaries ==> summaries[l] == gpt(ClusterMessages(feedbacks, labels, l)))
  }

  /** `summaries[lab] = call_gpt(...)`. */
  method AddSummary(summaries: map<int, string>, ghost done: seq<int>, lab: int,
                    feedbacks: seq<string>, labels: seq<int>, gpt: seq<Message> -> string)
    returns (updated: map<int, string>)
    requires SummarisedExactly(summaries, done, feedbacks, labels, gpt)
    ensures SummarisedExactly(updated, done + [lab], feedbacks, labels, gpt)
  {
    var summary := SummariseCluster(feedbacks, labels, lab, gpt);
    updated := summaries[lab := summary];
  }

  /** `label_clusters(feedbacks, labels)`: one summary per distinct label,
      the model's reply to that label's prompt. The dictionary's key order
      is SortedDistinct(labels), the order the loop visits them in. */
  method LabelClusters(feedbacks: seq<string>, labels: seq<int>, gpt: seq<Message> -> string)
    returns (summaries: map<int, string>)
    ensures forall l :: l in summaries <==> l in labels
    ensures forall l :: l in summaries ==> summaries[l] == gpt(ClusterMessages(feedbacks, labels, l))
  {
    var order := SortedDistinct(labels);
    summaries := map[];
    for t := 0 to |order|
      invariant SummarisedExactly(summaries, order[..t], feedbacks, labels, gpt)
    {
      summaries := AddSummary(summaries, order[..t], order[t], feedbacks, labels, gpt);
      assert order[..t + 1] == order[..t] + [order[t]];
    }
    assert order[..|order|] == order;
  }
}
