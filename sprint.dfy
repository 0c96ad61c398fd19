/** `run_sprint`: extract the creative, build the 50 personas, collect one
    reaction per persona (reporting progress), group the feedback by
    cluster label, and assemble the results table, the per-cluster mean
    intent and the markdown summary. */
module Sprint {
  import opened Wrappers
  import opened Text
  import opened Personas
  import opened Extraction
  import opened Reactions
  import opened Clusters

  /** `cluster_responses` asks KMeans for this many clusters. */
  const ClusterCount: nat := 5

  /** The services a run calls: the extraction libraries, the language model
      (its reply to a conversation), `cluster_responses` (embedding plus
      KMeans: a label per feedback text), Python's `float()` and the `.1f`
      formatting of the overall mean. */
  datatype Services = Services(
    readers: Readers,
    gpt: seq<Message> -> string,
    cluster: seq<string> -> seq<int>,
    parseFloat: string -> Option<real>,
    formatMean: real -> string)

  /** KMeans labels every point it is given. */
  ghost predicate OneLabelEach(services: Services) {
    forall fs: seq<string> :: |services.cluster(fs)| == |fs|
  }

  /** KMeans with ClusterCount clusters labels them 0 to ClusterCount - 1. */
  ghost predicate LabelsInRange(services: Services) {
    forall fs: seq<string>, i :: 0 <= i < |services.cluster(fs)| ==> 0 <= services.cluster(fs)[i] < ClusterCount
  }

  /** One `progress_cb.progress(idx / total, text=...)` call. */
  datatype Progress = Progress(fraction: real, text: string)

  /** A row of the results table `df`. */
  datatype Row = Row(persona: string, cluster: int, intent: real, feedback: string)

  /** A row of `cluster_means`. */
  datatype ClusterRow = ClusterRow(cluster: int, meanIntent: real, summary: string)

  /** What `run_sprint` returns, the chart left aside; `clusterMeans` is
      present when `return_cluster_df` is set. */
  datatype Report = Report(summary: string, table: seq<Row>, clusterMeans: Option<seq<ClusterRow>>, progress: seq<Progress>)

  /** `get_reaction(p, creative_txt)`, with the parse as intended. */
  function ReactionOf(services: Services, p: Persona, creative: string): Reaction {
    ParseReaction(ReplyTo(services, p, creative), services.parseFloat)
  }

  /** The model's reply to the reaction prompt for `p`. */
  function ReplyTo(services: Services, p: Persona, creative: string): string {
    services.gpt(ReactionMessages(p, creative))
  }

  /** `get_reaction(p, creative_txt)`: the system and user messages, the
      model's reply, and its parse. */
  method GetReaction(services: Services, p: Persona, creative: string) returns (reaction: Reaction)
    ensures reaction == ReactionOf(services, p, creative)
  {
    var messages := ReactionMessages(p, creative);
    var text := services.gpt(messages);
    reaction := ParseReaction(text, services.parseFloat);
  }

  /** The report made after `idx` of `total` personas. */
  function ProgressAt(idx: nat, total: nat): Progress
    requires 0 < idx <= total
  {
    Progress(idx as real / total as real, NatToString(idx) + "/" + NatToString(total) + " personas")
  }

  /** Every report of a run over `total` personas, in order. */
  function ProgressReports(total: nat): (r: seq<Progress>)
    ensures |r| == total && forall k :: 0 <= k < total ==> r[k] == ProgressAt(k + 1, total)
  {
    seq(total, k requires 0 <= k < total => ProgressAt(k + 1, total))
  }

  lemma DivLess(x: real, y: real, n: real)
    requires 0.0 < n && x < y
    ensures x / n < y / n
  {
    assert y / n - x / n == (y - x) / n;
  }

  lemma DivAtMostOne(x: real, n: real)
    requires 0.0 < x <= n
    ensures 0.0 < x / n <= 1.0
  {
    DivLess(0.0, x, n);
    if x < n {
      DivLess(x, n, n);
    }
  }

  lemma DivSelf(n: real)
    requires 0.0 < n
    ensures n / n == 1.0
  {
    assert n / n - 1.0 == (n - n) / n;
  }

  /** The reported fractions strictly increase, stay in (0, 1], and the last
      one is 1. */
  lemma ProgressIncreases(total: nat)
    ensures forall a, b :: 0 <= a < b < total ==>
              ProgressReports(total)[a].fraction < ProgressReports(total)[b].fraction
    ensures forall a :: 0 <= a < total ==>
              0.0 < ProgressReports(total)[a].fraction <= 1.0
    ensures 0 < total ==> ProgressReports(total)[total - 1].fraction == 1.0
  {
    var r := ProgressReports(total);
    forall a, b | 0 <= a < b < total
      ensures r[a].fraction < r[b].fraction
    {
      DivLess((a + 1) as real, (b + 1) as real, total as real);
    }
    forall a | 0 <= a < total
      ensures 0.0 < r[a].fraction <= 1.0
    {
      DivAtMostOne((a + 1) as real, total as real);
    }
    if 0 < total {
      DivSelf(total as real);
    }
  }

  /** The persona loop of `run_sprint`: one reaction per persona, in persona
      order, and a progress report after each when a callback is given. */
  method CollectReactions(services: Services, personas: seq<Persona>, creative: string, reportProgress: bool)
    returns (feedbacks: seq<string>, scores: seq<real>, progress: seq<Progress>)
    ensures |feedbacks| == |personas| && |scores| == |personas|
    ensures feedbacks == Feedbacks(ReactionsOf(services, personas, creative))
    ensures scores == Scores(ReactionsOf(services, personas, creative))
    ensures progress == if reportProgress then ProgressReports(|personas|) else []
  {
    feedbacks, scores, progress := [], [], [];
    var total := |personas|;
    ghost var rs := ReactionsOf(services, personas, creative);
    for i := 0 to total
      invariant feedbacks == Feedbacks(rs[..i]) && scores == Scores(rs[..i])
      invariant progress == if reportProgress then ProgressReports(total)[..i] else []
    {
      var reaction := GetReaction(services, personas[i], creative);
      assert reaction == rs[i];
      ReactionsAppend(rs, i);
      feedbacks := feedbacks + [reaction.feedback];
      scores := scores + [reaction.score];
      if reportProgress {
        ProgressAppend(total, i);
        progress := progress + [ProgressAt(i + 1, total)];
      }
    }
    assert rs[..total] == rs;
    assert ProgressReports(total)[..total] == ProgressReports(total);
  }

  lemma ReactionsAppend(rs: seq<Reaction>, i: nat)
    requires i < |rs|
    ensures Feedbacks(rs[..i + 1]) == Feedbacks(rs[..i]) + [rs[i].feedback]
    ensures Scores(rs[..i + 1]) == Scores(rs[..i]) + [rs[i].score]
  {
  }

  lemma ProgressAppend(total: nat, i: nat)
    requires i < total
    ensures ProgressReports(total)[..i + 1] == ProgressReports(total)[..i] + [ProgressAt(i + 1, total)]
  {
  }

  /** Sum of the scores whose label is `lab`. */
  function ScoreSum(labels: seq<int>, scores: seq<real>, lab: int): real
    requires |labels| == |scores|
    decreases |labels|
  {
    if labels == [] then 0.0
    else (if labels[0] == lab then scores[0] else 0.0) + ScoreSum(labels[1..], scores[1..], lab)
  }

  /** Number of rows whose label is `lab`. */
  function LabelCount(labels: seq<int>, lab: int): (n: nat)
    ensures n <= |labels|
    ensures lab in labels <==> n > 0
    decreases |labels|
  {
    if labels == [] then 0
    else (if labels[0] == lab then 1 else 0) + LabelCount(labels[1..], lab)
  }

  /** `df.groupby("cluster")["intent"].mean()` for one cluster: the
      arithmetic mean of the scores sharing the label. */
  function ClusterMean(labels: seq<int>, scores: seq<real>, lab: int): real
    requires |labels| == |scores| && lab in labels
  {
    ScoreSum(labels, scores, lab) / LabelCount(labels, lab) as real
  }

  /** `x` added to itself `n` times. */
  function Times(n: nat, x: real): real {
    if n == 0 then 0.0 else Times(n - 1, x) + x
  }

  lemma {:induction false} TimesIsProduct(n: nat, x: real)
    ensures Times(n, x) == n as real * x
  {
    if n > 0 {
      TimesIsProduct(n - 1, x);
      assert n as real * x == (n - 1) as real * x + x;
    }
  }

  /** If every score of the cluster lies in [lo, hi], their sum lies
      between `lo` and `hi` taken once per score. */
  lemma {:induction false} ScoreSumBounds(labels: seq<int>, scores: seq<real>, lab: int, lo: real, hi: real)
    requires |labels| == |scores|
    requires forall i :: 0 <= i < |labels| && labels[i] == lab ==> lo <= scores[i] <= hi
    ensures Times(LabelCount(labels, lab), lo) <= ScoreSum(labels, scores, lab) <= Times(LabelCount(labels, lab), hi)
    decreases |labels|
  {
    if labels != [] {
      var tail, tailScores := labels[1..], scores[1..];
      forall i | 0 <= i < |tail| && tail[i] == lab
        ensures lo <= tailScores[i] <= hi
      {
        assert labels[i + 1] == tail[i] && scores[i + 1] == tailScores[i];
      }
      ScoreSumBounds(tail, tailScores, lab, lo, hi);
    }
  }

  lemma DivBounds(s: real, n: nat, lo: real, hi: real)
    requires 0 < n && Times(n, lo) <= s <= Times(n, hi)
    ensures lo <= s / n as real <= hi
  {
    TimesIsProduct(n, lo);
    TimesIsProduct(n, hi);
    assert s / n as real - lo == (s - lo * n as real) / n as real;
    assert hi - s / n as real == (hi * n as real - s) / n as real;
  }

  /** The mean of a cluster lies between the least and greatest of its scores. */
  lemma ClusterMeanBounds(labels: seq<int>, scores: seq<real>, lab: int, lo: real, hi: real)
    requires |labels| == |scores| && lab in labels
    requires forall i :: 0 <= i < |labels| && labels[i] == lab ==> lo <= scores[i] <= hi
    ensures lo <= ClusterMean(labels, scores, lab) <= hi
  {
    ScoreSumBounds(labels, scores, lab, lo, hi);
    DivBounds(ScoreSum(labels, scores, lab), LabelCount(labels, lab), lo, hi);
  }

  /** A cluster whose scores are all `v` has mean `v`. */
  lemma ConstantClusterMean(labels: seq<int>, scores: seq<real>, lab: int, v: real)
    requires |labels| == |scores| && lab in labels
    requires forall i :: 0 <= i < |labels| && labels[i] == lab ==> scores[i] == v
    ensures ClusterMean(labels, scores, lab) == v
  {
    ClusterMeanBounds(labels, scores, lab, v, v);
  }

  function Sum(xs: seq<real>): real
    decreases |xs|
  {
    if xs == [] then 0.0 else xs[0] + Sum(xs[1..])
  }

  /** `np.mean(scores)`. */
  function Mean(xs: seq<real>): real
    requires xs != []
  {
    Sum(xs) / |xs| as real
  }

  lemma {:induction false} SumBounds(xs: seq<real>, lo: real, hi: real)
    requires forall i :: 0 <= i < |xs| ==> lo <= xs[i] <= hi
    ensures Times(|xs|, lo) <= Sum(xs) <= Times(|xs|, hi)
    decreases |xs|
  {
    if xs != [] {
      assert forall i :: 0 <= i < |xs[1..]| ==> xs[1..][i] == xs[i + 1];
      SumBounds(xs[1..], lo, hi);
    }
  }

  /** The overall mean lies between the least and greatest score. */
  lemma MeanBounds(xs: seq<real>, lo: real, hi: real)
    requires xs != []
    requires forall i :: 0 <= i < |xs| ==> lo <= xs[i] <= hi
    ensures lo <= Mean(xs) <= hi
  {
    SumBounds(xs, lo, hi);
    DivBounds(Sum(xs), |xs|, lo, hi);
  }

  /** `cluster_means`: one row per distinct label in ascending order (the
      groupby order, kept by the merge), with its mean intent and summary. */
  function ClusterMeans(labels: seq<int>, scores: seq<real>, summaries: map<int, string>): (r: seq<ClusterRow>)
    requires |labels| == |scores|
    requires forall l :: l in labels ==> l in summaries
    ensures var order := SortedDistinct(labels);
            |r| == |order| && forall t :: 0 <= t < |r| ==> r[t].cluster == order[t]
  {
    var order := SortedDistinct(labels);
    seq(|order|, t requires 0 <= t < |order| =>
      ClusterRow(order[t], ClusterMean(labels, scores, order[t]), summaries[order[t]]))
  }

  /** The table has one row per distinct label, in ascending order of label,
      and every row's mean is that of its cluster. */
  lemma ClusterMeansRows(labels: seq<int>, scores: seq<real>, summaries: map<int, string>)
    requires |labels| == |scores|
    requires forall l :: l in labels ==> l in summaries
    ensures var r := ClusterMeans(labels, scores, summaries);
            && (forall a, b :: 0 <= a < b < |r| ==> r[a].cluster < r[b].cluster)
            && (forall l :: l in labels <==> exists t :: 0 <= t < |r| && r[t].cluster == l)
            && (forall t :: 0 <= t < |r| ==>
                  && r[t].cluster in labels
                  && r[t].meanIntent == ClusterMean(labels, scores, r[t].cluster)
                  && r[t].summary == summaries[r[t].cluster])
  {
    var order := SortedDistinct(labels);
    var r := ClusterMeans(labels, scores, summaries);
    forall l | l in labels
      ensures exists t :: 0 <= t < |r| && r[t].cluster == l
    {
      assert l in order;
      var t :| 0 <= t < |order| && order[t] == l;
      assert r[t].cluster == l;
    }
  }

  /** The head of the markdown summary. */
  function SummaryHead(meanText: string): string {
    "**Overall mean intent:** " + meanText + "/10\n\n**Key clusters:**\n"
  }

  /** `f"- **Cluster {c}** — {s}\n"`. */
  function Bullet(c: int, s: string): string {
    "- **Cluster " + IntToString(c) + "** \U{2014} " + s + "\n"
  }

  /** The bullets for the clusters of `order`, in that order. */
  function Bullets(order: seq<int>, summaries: map<int, string>): string
    requires forall c :: c in order ==> c in summaries
    decreases |order|
  {
    if order == [] then ""
    else Bullets(order[..|order| - 1], summaries) + Bullet(order[|order| - 1], summaries[order[|order| - 1]])
  }

  /** The summary text: the head, then `summary += ...` once per cluster of
      `summaries.items()`, whose order is `order`. */
  method BuildSummary(meanText: string, order: seq<int>, summaries: map<int, string>) returns (summary: string)
    requires forall c :: c in order ==> c in summaries
    ensures summary == SummaryHead(meanText) + Bullets(order, summaries)
  {
    var head := SummaryHead(meanText);
    summary := head;
    for t := 0 to |order|
      invariant summary == head + Bullets(order[..t], summaries)
    {
      var c := order[t];
      var bullet := Bullet(c, summaries[c]);
      BulletsAppend(head, order, summaries, t);
      summary := summary + bullet;
    }
    assert order[..|order|] == order;
  }

  /** One more cluster adds its bullet at the end, after any head. */
  lemma BulletsAppend(head: string, order: seq<int>, summaries: map<int, string>, t: nat)
    requires forall c :: c in order ==> c in summaries
    requires t < |order|
    ensures head + Bullets(order[..t + 1], summaries) == head + Bullets(order[..t], summaries) + Bullet(order[t], summaries[order[t]])
  {
    assert order[..t + 1][..t] == order[..t];
    var b := Bullets(order[..t], summaries);
    var bullet := Bullet(order[t], summaries[order[t]]);
    assert head + (b + bullet) == head + b + bullet;
  }

  /** Every cluster of `order` has its bullet in the bullets. */
  lemma {:induction false} BulletsListEveryCluster(order: seq<int>, summaries: map<int, string>, t: nat)
    requires forall c :: c in order ==> c in summaries
    requires t < |order|
    ensures Contains(Bullets(order, summaries), Bullet(order[t], summaries[order[t]]))
    decreases |order|
  {
    var init := order[..|order| - 1];
    var last := Bullet(order[|order| - 1], summaries[order[|order| - 1]]);
    var rest := Bullets(init, summaries);
    if t == |order| - 1 {
      ContainsIff(last, last, 0);
      ContainedRight(rest, last, last);
    } else {
      assert order[t] == init[t];
      BulletsListEveryCluster(init, summaries, t);
      ContainedLeft(rest, last, Bullet(order[t], summaries[order[t]]));
    }
  }

  /** The summary starts with its head, and lists every cluster's bullet. */
  lemma SummaryListsEveryCluster(meanText: string, order: seq<int>, summaries: map<int, string>, t: nat)
    requires forall c :: c in order ==> c in summaries
    requires t < |order|
    ensures StartsWith(SummaryHead(meanText) + Bullets(order, summaries), SummaryHead(meanText))
    ensures Contains(SummaryHead(meanText) + Bullets(order, summaries), Bullet(order[t], summaries[order[t]]))
  {
    var head := SummaryHead(meanText);
    var bullets := Bullets(order, summaries);
    assert (head + bullets)[..|head|] == head;
    BulletsListEveryCluster(order, summaries, t);
    ContainedRight(head, bullets, Bullet(order[t], summaries[order[t]]));
  }

  /** The reactions of all personas, in persona order. */
  function ReactionsOf(services: Services, personas: seq<Persona>, creative: string): (r: seq<Reaction>)
    ensures |r| == |personas| && forall i :: 0 <= i < |r| ==> r[i] == ReactionOf(services, personas[i], creative)
  {
    seq(|personas|, i requires 0 <= i < |personas| => ReactionOf(services, personas[i], creative))
  }

  /** A reply on which `get_reaction` as written raises ValueError: it has
      the word "INTENT_SCORE" but never "INTENT_SCORE:". */
  predicate Unparsable(reply: string) {
    Contains(reply, ScoreWord) && !Contains(reply, ScoreMarker)
  }

  /** The outcome of the reaction loop of `run_sprint` as written: each reply
      parsed by the code as written, the first ValueError ending the run. */
  function AsWrittenReactions(services: Services, personas: seq<Persona>, creative: string): Result<seq<Reaction>, ReactionError> {
    Collect(AsWrittenOutcomes(services, personas, creative))
  }

  function AsWrittenOutcomes(services: Services, personas: seq<Persona>, creative: string): (r: seq<Result<Reaction, ReactionError>>)
    ensures |r| == |personas|
    ensures forall i :: 0 <= i < |r| ==> r[i] == ParseReactionAsWritten(ReplyTo(services, personas[i], creative), services.parseFloat)
  {
    seq(|personas|, i requires 0 <= i < |personas| => ParseReactionAsWritten(ReplyTo(services, personas[i], creative), services.parseFloat))
  }

  /** The loop as written gets through every persona exactly when no reply is
      unparsable, and then it gathers exactly the reactions this model uses;
      otherwise the source's run ends with the ValueError. */
  lemma AsWrittenLoopAgrees(services: Services, personas: seq<Persona>, creative: string)
    ensures AsWrittenReactions(services, personas, creative).Success? <==>
              forall i :: 0 <= i < |personas| ==> !Unparsable(ReplyTo(services, personas[i], creative))
    ensures AsWrittenReactions(services, personas, creative).Success? ==>
              AsWrittenReactions(services, personas, creative).value == ReactionsOf(services, personas, creative)
  {
    var outcomes := AsWrittenOutcomes(services, personas, creative);
    var rs := ReactionsOf(services, personas, creative);
    forall i | 0 <= i < |personas|
      ensures outcomes[i].Success? <==> !Unparsable(ReplyTo(services, personas[i], creative))
      ensures outcomes[i].Success? ==> outcomes[i].value == rs[i]
    {
      OutcomeAgrees(services, personas[i], creative);
    }
    CollectAgrees(outcomes, rs);
  }

  /** For one persona: the code as written returns unless the reply is
      unparsable, and what it returns is the model's reaction. */
  lemma OutcomeAgrees(services: Services, p: Persona, creative: string)
    ensures var outcome := ParseReactionAsWritten(ReplyTo(services, p, creative), services.parseFloat);
            && (outcome.Success? <==> !Unparsable(ReplyTo(services, p, creative)))
            && (outcome.Success? ==> outcome.value == ReactionOf(services, p, creative))
  {
    AsWrittenAgreesWhenItReturns(ReplyTo(services, p, creative), services.parseFloat);
  }

  /** Collecting outcomes that agree with `vs` wherever they succeed succeeds
      exactly when every outcome does, and then gives `vs`. */
  lemma CollectAgrees<T, E>(outcomes: seq<Result<T, E>>, vs: seq<T>)
    requires |outcomes| == |vs|
    requires forall i :: 0 <= i < |vs| ==> outcomes[i].Success? ==> outcomes[i].value == vs[i]
    ensures Collect(outcomes).Success? <==> forall i :: 0 <= i < |vs| ==> outcomes[i].Success?
    ensures Collect(outcomes).Success? ==> Collect(outcomes).value == vs
  {
    match Collect(outcomes)
    case Success(ws) =>
      CollectChar(outcomes, ws);
      assert ws == vs;
    case Failure(_) =>
      if forall i :: 0 <= i < |vs| ==> outcomes[i].Success? {
        CollectAllSucceed(outcomes, vs);
      }
  }

  function Feedbacks(rs: seq<Reaction>): (r: seq<string>)
    ensures |r| == |rs| && forall i :: 0 <= i < |r| ==> r[i] == rs[i].feedback
  {
    seq(|rs|, i requires 0 <= i < |rs| => rs[i].feedback)
  }

  function Scores(rs: seq<Reaction>): (r: seq<real>)
    ensures |r| == |rs| && forall i :: 0 <= i < |r| ==> r[i] == rs[i].score
  {
    seq(|rs|, i requires 0 <= i < |rs| => rs[i].score)
  }

  /** The dictionary `label_clusters` returns. */
  function SummaryMap(services: Services, feedbacks: seq<string>, labels: seq<int>): (m: map<int, string>)
    ensures forall l :: l in m <==> l in labels
  {
    map l | l in labels :: services.gpt(ClusterMessages(feedbacks, labels, l))
  }

  /** The results table `df`: one row per persona, in persona order. */
  function Table(personas: seq<Persona>, labels: seq<int>, scores: seq<real>, feedbacks: seq<string>): (t: seq<Row>)
    requires |labels| == |personas| && |scores| == |personas| && |feedbacks| == |personas|
    ensures |t| == |personas|
    ensures forall i :: 0 <= i < |t| ==> t[i] == Row(personas[i].name, labels[i], scores[i], feedbacks[i])
  {
    seq(|personas|, i requires 0 <= i < |personas| => Row(personas[i].name, labels[i], scores[i], feedbacks[i]))
  }

  /** What LabelClusters promises determines the dictionary. */
  lemma SummariesAreSummaryMap(services: Services, feedbacks: seq<string>, labels: seq<int>, summaries: map<int, string>)
    requires forall l :: l in summaries <==> l in labels
    requires forall l :: l in summaries ==> summaries[l] == services.gpt(ClusterMessages(feedbacks, labels, l))
    ensures summaries == SummaryMap(services, feedbacks, labels)
  {
  }

  /** The labels `cluster_responses(feedbacks)` gives the run's feedback. */
  function LabelsOf(services: Services, personas: seq<Persona>, creative: string): seq<int> {
    services.cluster(Feedbacks(ReactionsOf(services, personas, creative)))
  }

  /** The report of a run whose personas were built: the specification
      `RunSprint` is proved against. */
  function SprintReport(services: Services, personas: seq<Persona>, creative: string,
                        reportProgress: bool, returnClusterDf: bool): Report
    requires OneLabelEach(services) && personas != []
  {
    var rs := ReactionsOf(services, personas, creative);
    var feedbacks := Feedbacks(rs);
    var scores := Scores(rs);
    var labels := services.cluster(feedbacks);
    var summaries := SummaryMap(services, feedbacks, labels);
    Report(
      SummaryHead(services.formatMean(Mean(scores))) + Bullets(SortedDistinct(labels), summaries),
      Table(personas, labels, scores, feedbacks),
      if returnClusterDf then Some(ClusterMeans(labels, scores, summaries)) else None,
      if reportProgress then ProgressReports(|personas|) else [])
  }

  /** Row `i` of the results table is persona `i`'s name, its cluster label,
      and the score and feedback parsed from the model's reply to its prompt. */
  lemma TableRows(services: Services, personas: seq<Persona>, creative: string,
                  reportProgress: bool, returnClusterDf: bool, i: nat)
    requires OneLabelEach(services) && personas != [] && i < |personas|
    ensures var report := SprintReport(services, personas, creative, reportProgress, returnClusterDf);
            var reaction := ParseReaction(services.gpt(ReactionMessages(personas[i], creative)), services.parseFloat);
            |report.table| == |personas|
            && report.table[i] == Row(personas[i].name, LabelsOf(services, personas, creative)[i],
                                      reaction.score, reaction.feedback)
  {
  }

  /** When every score is `v`, every cluster's mean intent is `v`. */
  lemma UniformClusterMeans(labels: seq<int>, scores: seq<real>, summaries: map<int, string>, v: real)
    requires |labels| == |scores|
    requires forall l :: l in labels ==> l in summaries
    requires forall i :: 0 <= i < |scores| ==> scores[i] == v
    ensures forall t :: 0 <= t < |ClusterMeans(labels, scores, summaries)| ==>
              ClusterMeans(labels, scores, summaries)[t].meanIntent == v
  {
    var r := ClusterMeans(labels, scores, summaries);
    ClusterMeansRows(labels, scores, summaries);
    forall t | 0 <= t < |r|
      ensures r[t].meanIntent == v
    {
      ConstantClusterMean(labels, scores, r[t].cluster, v);
    }
  }

  /** When every reply scores `v`, every cluster's mean intent is `v`, and
      so is the overall mean. */
  lemma UniformScoresGiveUniformMeans(services: Services, personas: seq<Persona>, creative: string,
                                      reportProgress: bool, v: real)
    requires OneLabelEach(services) && personas != []
    requires forall p :: p in personas ==> ReactionOf(services, p, creative).score == v
    ensures var report := SprintReport(services, personas, creative, reportProgress, true);
            report.clusterMeans.Some?
            && forall t :: 0 <= t < |report.clusterMeans.value| ==> report.clusterMeans.value[t].meanIntent == v
    ensures Mean(Scores(ReactionsOf(services, personas, creative))) == v
  {
    var rs := ReactionsOf(services, personas, creative);
    var scores := Scores(rs);
    forall i | 0 <= i < |scores|
      ensures scores[i] == v
    {
      assert personas[i] in personas;
    }
    var labels := services.cluster(Feedbacks(rs));
    UniformClusterMeans(labels, scores, SummaryMap(services, Feedbacks(rs), labels), v);
    MeanBounds(scores, v, v);
  }

  /** The summary of the report opens with the overall mean, and lists
      every cluster label the run produced with the model's theme for it. */
  lemma ReportListsEveryCluster(services: Services, personas: seq<Persona>, creative: string,
                                reportProgress: bool, returnClusterDf: bool, l: int)
    requires OneLabelEach(services) && personas != []
    requires l in LabelsOf(services, personas, creative)
    ensures var feedbacks := Feedbacks(ReactionsOf(services, personas, creative));
            var labels := LabelsOf(services, personas, creative);
            var head := SummaryHead(services.formatMean(Mean(Scores(ReactionsOf(services, personas, creative)))));
            var summary := SprintReport(services, personas, creative, reportProgress, returnClusterDf).summary;
            && StartsWith(summary, head)
            && Contains(summary, Bullet(l, services.gpt(ClusterMessages(feedbacks, labels, l))))
  {
    var rs := ReactionsOf(services, personas, creative);
    var labels := services.cluster(Feedbacks(rs));
    var order := SortedDistinct(labels);
    var summaries := SummaryMap(services, Feedbacks(rs), labels);
    assert l in order;
    var t :| 0 <= t < |order| && order[t] == l;
    SummaryListsEveryCluster(services.formatMean(Mean(Scores(rs))), order, summaries, t);
  }

  /** An ascending sequence of integers in [lo, hi) has at most hi - lo
      elements. */
  lemma {:induction false} IncreasingWithin(xs: seq<int>, lo: int, hi: int)
    requires StrictlyIncreasing(xs)
    requires forall a :: 0 <= a < |xs| ==> lo <= xs[a] < hi
    ensures |xs| <= if lo <= hi then hi - lo else 0
    decreases |xs|
  {
    if xs != [] {
      HeadAndTail(xs);
      var tail := xs[1..];
      forall a | 0 <= a < |tail|
        ensures xs[0] + 1 <= tail[a] < hi
      {
        assert tail[a] == xs[a + 1];
      }
      IncreasingWithin(tail, xs[0] + 1, hi);
    }
  }

  /** With labels below ClusterCount, the summary lists at most ClusterCount
      clusters and the cluster table has at most ClusterCount rows. */
  lemma AtMostClusterCountClusters(services: Services, personas: seq<Persona>, creative: string,
                                   reportProgress: bool)
    requires OneLabelEach(services) && LabelsInRange(services) && personas != []
    ensures |SortedDistinct(LabelsOf(services, personas, creative))| <= ClusterCount
    ensures |SprintReport(services, personas, creative, reportProgress, true).clusterMeans.value| <= ClusterCount
  {
    var labels := LabelsOf(services, personas, creative);
    var order := SortedDistinct(labels);
    forall a | 0 <= a < |order|
      ensures 0 <= order[a] < ClusterCount
    {
      assert order[a] in labels;
    }
    IncreasingWithin(order, 0, ClusterCount);
  }

  /** `run_sprint(file_obj, segment, persona_groups, return_cluster_df=...,
      progress_cb=...)`. The random draws are an input; persona
      generation's errors are the run's errors, and otherwise the report is
      SprintReport of the personas and the extracted creative. */
  method RunSprint(services: Services, upload: Upload, segment: string, groups: seq<SeedGroup>, draws: seq<Draw>,
                   reportProgress: bool, returnClusterDf: bool)
    returns (r: Result<Report, PersonaError>)
    requires OneLabelEach(services)
    requires |draws| == TargetCount
    requires BasePool(segment, groups) != [] ==> DrawsFit(BasePool(segment, groups), draws)
    ensures r.Failure? <==> PersonaVariants(segment, groups, draws).Failure?
    ensures r.Failure? ==> r.error == PersonaVariants(segment, groups, draws).error
    ensures r.Success? ==>
              var personas := PersonaVariants(segment, groups, draws).value;
              |personas| == TargetCount
              && r.value == SprintReport(services, personas, ExtractText(services.readers, upload),
                                         reportProgress, returnClusterDf)
  {
    var creative := ExtractText(services.readers, upload);
    var made := Get50Personas(segment, groups, draws);
    if made.Failure? {
      return Failure(made.error);
    }
    var personas := made.value;
    var feedbacks, scores, progress := CollectReactions(services, personas, creative, reportProgress);
    var report := AssembleReport(services, personas, creative, feedbacks, scores, progress, reportProgress, returnClusterDf);
    r := Success(report);
  }

  /** The part of `run_sprint` after the persona loop: cluster the feedback,
      summarise each cluster, and build the table, the cluster means and
      the summary text. */
  method AssembleReport(services: Services, personas: seq<Persona>, creative: string,
                        feedbacks: seq<string>, scores: seq<real>, progress: seq<Progress>,
                        reportProgress: bool, returnClusterDf: bool)
    returns (report: Report)
    requires OneLabelEach(services) && personas != []
    requires feedbacks == Feedbacks(ReactionsOf(services, personas, creative))
    requires scores == Scores(ReactionsOf(services, personas, creative))
    requires progress == if reportProgress then ProgressReports(|personas|) else []
    ensures report == SprintReport(services, personas, creative, reportProgress, returnClusterDf)
  {
    var labels := services.cluster(feedbacks);
    var summaries := LabelClusters(feedbacks, labels, services.gpt);
    SummariesAreSummaryMap(services, feedbacks, labels, summaries);
    var table := Table(personas, labels, scores, feedbacks);
    var clusterMeans := ClusterMeans(labels, scores, summaries);
    var summary := BuildSummary(services.formatMean(Mean(scores)), SortedDistinct(labels), summaries);
    report := Report(summary, table, if returnClusterDf then Some(clusterMeans) else None, progress);
  }
}
