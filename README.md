# Creative sprint engine in Dafny

This project models the core of `sprint_engine.py`, the engine of a creative-testing tool that works in five steps:

1. It reads an uploaded marketing creative (plain text, Word or PDF).
2. It grows 50 investor personas from seed personas of a chosen segment.
3. It asks a language model how each persona reacts to the creative, and reads an intent score (0 to 10) out of each reply.
4. It clusters the replies and asks the model to summarise each cluster's common theme.
5. It reports a results table, the mean intent per cluster and a markdown summary.

Every external service is a parameter of the model rather than code:
- the language model, a function from the conversation sent to the reply text;
- the embedding-plus-KMeans clustering, a function from the feedback texts to one label each;
- the random draws, one `Draw` per persona variant, in call order;
- Python's `float()`, a partial function returning `Option<real>`;
- `mimetypes.guess_type`, the UTF-8 decoder and the two optional document readers (`None` when the library is not installed);
- the `.1f` formatting of the overall mean.

Modules, one file each:

- `Wrappers` (`wrappers.dfy`): `Option` and `Result`. A Python exception becomes a `Failure`.
- `Text` (`text.dfy`): the Python `str` behaviour the code relies on. This covers `isspace`, `strip`, `split()[0]`, `rfind`/`in`, `startswith`/`endswith`, ASCII `lower`, `join` and `str(int)`.
- `Personas` (`personas.dfy`): `mutate_persona` and `get_50_personas`. The `while len(out) < 50` loop is a method proved against a specification function.
- `Extraction` (`extraction.dfy`): `extract_text` and its two reader helpers with their placeholders.
- `Reactions` (`reactions.dfy`):
  - the prompt and messages of `get_reaction`;
  - the parse of the reply, both as written and as intended (see Findings).
- `Clusters` (`clusters.dfy`): `label_clusters`. It visits the labels in ascending order, keeps the first ten snippets per label and fills the dictionary in a loop.
- `Sprint` (`sprint.dfy`): `run_sprint`, which covers:
  - the reaction loop with its progress reports;
  - the results table and the per-cluster mean intent;
  - the summary built with `+=`;
  - the whole run, proved against the specification function `SprintReport`.

## Model

| member | source | states |
|---|---|---|
| Text.Strip | sprint_engine.py:100 | `strip()`: the result is the input with its leading and trailing whitespace removed, i.e. the input is `a + r + b` with `a`, `b` all whitespace and `r` not starting or ending with whitespace |
| Text.StripIdempotent | sprint_engine.py:105 | stripping twice is stripping once |
| Text.StripPadded | sprint_engine.py:105 | stripping whitespace padding around a text without outer whitespace gives that text back |
| Text.FirstToken | sprint_engine.py:37 | `split()[0]`: `None` exactly when the name is blank, otherwise a non-empty whitespace-free token that the name starts with after its leading whitespace |
| Text.FirstTokenOfPrefix | sprint_engine.py:37-38 | a token followed by text starting with whitespace is the first token |
| Text.Contains | sprint_engine.py:97 | definition: `pat in s`, as the last occurrence of `pat` existing; Text.ContainsIff turns any occurrence into containment |
| Text.StartsWith | sprint_engine.py:80 | definition: `s.startswith(prefix)`, the first `len(prefix)` characters are `prefix` |
| Text.EndsWith | sprint_engine.py:82-84 | definition: `s.endswith(suffix)`, the last `len(suffix)` characters are `suffix` |
| Text.Lower | sprint_engine.py:77 | `str.lower()` keeps the length; definition: each ASCII capital letter replaced by its small letter, every other character kept |
| Text.LastIndexOf | sprint_engine.py:98 | `rfind`: `Some(k)` is an occurrence with none after it; `None` means no occurrence at all |
| Text.Join | sprint_engine.py:120 | definition: `sep.join(parts)`, the empty string for no parts, the part itself for one, else the first part, `sep` and the join of the rest |
| Text.JoinHasParts | sprint_engine.py:120 | every part of a `join` occurs in the joined string |
| Text.JoinSplit | sprint_engine.py:120 | a join splits at every part boundary into the join before, one separator and the join after |
| Text.JoinSnoc | sprint_engine.py:120 | one more part lands at the end of the join, after exactly one separator |
| Text.JoinAdjacent | sprint_engine.py:120 | consecutive parts occur in the join in their order with exactly one separator between them |
| Text.DecimalRoundTrip | sprint_engine.py:38 | `str(n)` is all digits and reads back as `n` |
| Text.NatToStringInjective | sprint_engine.py:38 | different variant numbers give different decimal strings |
| Text.NatToString | sprint_engine.py:146 | `str(n)` of a natural number is non-empty, all digits, and starts with 0 only for 0 (Text.DecimalRoundTrip reads it back) |
| Text.IntToString | sprint_engine.py:183 | definition: `str(i)`, a minus sign before the digits of a negative number |
| Personas.TruncateToInt | sprint_engine.py:40 | `int(x)` truncates toward zero: within one below a non-negative `x`, within one above a negative one |
| Personas.VariantName | sprint_engine.py:38 | definition: `f"{first} Variant {idx+1}"`; its first token and ending are stated in Personas.VariantNameShape |
| Personas.PerturbedIncome | sprint_engine.py:40 | definition: `int(income * factor)` on exact reals; its bounds are stated in Personas.IncomeBounds |
| Personas.IsVariantOf | sprint_engine.py:36-40 | definition of a variant: the seed's first token and the " Variant n" ending, an age in the randint range, the seed's other fields, and for a non-negative seed income the perturbed bounds |
| Personas.MutatePersona | sprint_engine.py:35-41 | fails with NoFirstName on a blank name, otherwise with EmptyAgeRange when the seed age is below 13 (randint's range is empty); succeeds exactly when neither holds |
| Personas.MutationIsVariant | sprint_engine.py:36-40 | a successful variant is named first token + " Variant " + (idx+1), has an age in [max(18, age-5), age+5] and so at least 18, keeps occupation, location and every other field, and for a non-negative seed income has one between 0 and 1.3 times it and less than one below 0.7 times it |
| Personas.VariantNameShape | sprint_engine.py:37-38 | a variant's name has the seed's first name as first token and ends in " Variant " + (idx+1) |
| Personas.IncomeBounds | sprint_engine.py:40 | `int(income * f)` with f in [0.7, 1.3] and income >= 0 is non-negative, at most 1.3 times, and less than one below 0.7 times the income |
| Personas.SelectGroups | sprint_engine.py:45-47 | a group is kept exactly when it is in the input and the request is "All Segments" or names its segment |
| Personas.GroupMembers | sprint_engine.py:48-53 | the pool entries of a group are exactly its present male and female personas |
| Personas.BasePool | sprint_engine.py:48-53 | definition: the present male and female seeds of the selected groups, group by group; its membership is stated in Personas.BasePoolMembers |
| Personas.BasePoolMembers | sprint_engine.py:45-53 | a persona is in the base pool exactly when it is the male or female entry of a selected group |
| Personas.Collect | sprint_engine.py:56-58 | definition: the values of a run of steps that may raise, stopping at the first error; what it gives is stated in the Collect lemmas below |
| Personas.CollectAllSucceed | sprint_engine.py:56-58 | a loop whose steps all return yields exactly their values in order |
| Personas.CollectFirstFailure | sprint_engine.py:56-58 | a loop raises the error of its first raising step |
| Personas.CollectChar | sprint_engine.py:56-58 | a loop that returned holds every step's value in order |
| Personas.CollectThenSuccess | sprint_engine.py:57-58 | one more returning step appends its value |
| Personas.CollectThenFailure | sprint_engine.py:57 | a raising step after returning ones is the loop's error |
| Personas.Mutations | sprint_engine.py:56-58 | one mutation per loop iteration, the `k`-th of the `k`-th drawn seed with index `k` |
| Personas.VariantsOf | sprint_engine.py:54-59 | definition of the loop's outcome: EmptyPool on an empty pool (where `random.choice` raises), otherwise the 50 mutations collected, or their first error |
| Personas.MutateDrawn | sprint_engine.py:57 | one loop step of `get_50_personas`: the `i`-th iteration mutates the randomly chosen seed with index `i`; its ensures is the step's definition, and what the loop promises is in Personas.Get50Personas |
| Personas.GrowVariants | sprint_engine.py:54-59 | the loop's result is EmptyPool for an empty pool, otherwise the 50 mutations in order or the first error among them; a success has exactly 50 personas |
| Personas.Get50Personas | sprint_engine.py:44-59 | equals the specification of the selection plus the loop; an empty pool raises EmptyPool; a success has exactly 50 personas |
| Personas.PersonaVariants | sprint_engine.py:44-59 | definition of `get_50_personas`: the variant loop over the segment's base pool |
| Personas.VariantsComeFromSegment | sprint_engine.py:44-59 | persona `k` of a successful run is a variant made with index `k` (its name ends in " Variant " + (k+1), its age within five years of the seed's and at least 18, its occupation, location and other fields the seed's, and for a non-negative seed income its income between 0 and 1.3 times it and less than one below 0.7 times it) of the male or female seed of a group of the requested segment |
| Extraction.PathName | sprint_engine.py:77 | `Path(name).name` contains no '/' |
| Extraction.PathNameOfJoin | sprint_engine.py:77 | the directory in front of a base name does not change `Path(...).name` |
| Extraction.PathNameOfLower | sprint_engine.py:77 | lower-casing a path commutes with taking its name |
| Extraction.RouteOf | sprint_engine.py:80-87 | text MIME exactly when plain text; Word exactly when not text and ending ".doc"/".docx"; PDF exactly when not text and ending ".pdf"; unsupported exactly otherwise |
| Extraction.FileKey | sprint_engine.py:77 | definition: `Path(name).name.lower()`, the key every route is decided on |
| Extraction.DocxText | sprint_engine.py:69-73 | the python-docx placeholder when the library is absent, else the paragraphs joined by newlines |
| Extraction.PdfText | sprint_engine.py:62-66 | the PyPDF2 placeholder when the library is absent |
| Extraction.ExtractText | sprint_engine.py:76-87 | the decoded bytes, the Word text, the PDF text or the unsupported-format placeholder, as RouteOf decides on the lower-cased base name and its MIME type |
| Extraction.ExtractIgnoresCase | sprint_engine.py:77 | upper or lower case in the file name does not change the extracted text |
| Extraction.ExtractIgnoresDirectory | sprint_engine.py:77 | the directory in the file name does not change the extracted text |
| Extraction.UnknownFormatIsUnsupported | sprint_engine.py:87 | a non-text, non-Word, non-PDF upload gets the unsupported-format placeholder |
| Reactions.ReactionPrompt | sprint_engine.py:23-32 | the rendered template is the persona line "You are <name>, a <age>-year-old <occupation> from <location>.\n", then exactly the fixed instructions, then the creative between the two dashed rules |
| Reactions.PersonaLine | sprint_engine.py:23 | definition: the template's first line, "You are <name>, a <age>-year-old <occupation> from <location>." |
| Reactions.CreativeBlock | sprint_engine.py:27-32 | definition: the creative between the two dashed rules that end the template |
| Reactions.PromptDeterminesCreative | sprint_engine.py:23-32 | two prompts for the same persona are equal only if their creatives are |
| Reactions.ReactionMessages | sprint_engine.py:91-95 | exactly two messages: the fixed system instruction, then the persona's rendered prompt as the user's message |
| Reactions.MarkerHasWord | sprint_engine.py:97-98 | an occurrence of "INTENT_SCORE:" is an occurrence of "INTENT_SCORE" |
| Reactions.SplitAt | sprint_engine.py:98-102 | definition: the stripped text before the marker as feedback, the stripped rest parsed as the score, 0.0 when `float()` fails |
| Reactions.ParseReactionAsWritten | sprint_engine.py:97-105 | raises exactly when the reply has "INTENT_SCORE" but not "INTENT_SCORE:"; without the word, the stripped reply and 0.0; with the marker, the split at its last occurrence |
| Reactions.ParseReaction | sprint_engine.py:97-105 | without "INTENT_SCORE:", the stripped reply and 0.0; with it, the stripped text before its last occurrence and the parsed stripped remainder, or 0.0 when that does not parse |
| Reactions.AsWrittenAgreesWhenItReturns | sprint_engine.py:97-105 | where the code as written returns, it returns the intended parse; where it raises, the intended parse falls back to the stripped reply and 0.0 |
| Reactions.MissingColonRaises | sprint_engine.py:97-99 | the reply "INTENT_SCORE 7" makes the code as written raise, and the intended parse gives the stripped reply with score 0.0 |
| Reactions.ParseWellFormedReply | sprint_engine.py:97-105 | a reply of feedback, marker and a score line without another marker parses, in both versions, to the stripped feedback and the parsed stripped score line |
| Reactions.ParsePaddedReply | sprint_engine.py:97-105 | feedback and score padded with whitespace around the marker parse to exactly that feedback and that score |
| Reactions.GreatIdeaExample | sprint_engine.py:97-105 | "Great idea.\nINTENT_SCORE: 7" parses to ("Great idea.", 7.0) |
| Reactions.BananaExample | sprint_engine.py:99-102 | a score line that is not a number gives score 0.0 and keeps the feedback |
| Clusters.InsertSorted | sprint_engine.py:116 | inserting into an ascending list without repeats keeps it so, adding exactly the new element |
| Clusters.SortedDistinct | sprint_engine.py:116 | `sorted(set(labels))`: strictly ascending, with exactly the labels' values |
| Clusters.SortedUnique | sprint_engine.py:116 | two strictly ascending lists with the same elements are equal, so SortedDistinct is the only possible order |
| Clusters.HeadAndTail | sprint_engine.py:116 | the head of an ascending list is its least element and the tail holds the rest, still ascending |
| Clusters.Matching | sprint_engine.py:117 | the positions whose label is `lab`, ascending and all of them |
| Clusters.SnippetIndices | sprint_engine.py:117 | at most ten positions, ascending, each within both lists and carrying the label |
| Clusters.Snippets | sprint_engine.py:117 | the kept snippets are the texts at those positions, in input order |
| Clusters.SnippetsAreFirst | sprint_engine.py:117 | a text with the label that was not kept comes after ten kept ones |
| Clusters.ClusterPrompt | sprint_engine.py:118-121 | the prompt is the fixed header followed by exactly the join of the kept snippets with "\n---\n"; Clusters.PromptSeparatesSnippets and Text.JoinAdjacent state the order and separator that join gives |
| Clusters.PromptHasSnippets | sprint_engine.py:118-121 | every kept snippet occurs in the prompt |
| Clusters.PromptSeparatesSnippets | sprint_engine.py:117-121 | consecutive kept snippets appear in the prompt in input order with exactly "\n---\n" between them |
| Clusters.ClusterMessages | sprint_engine.py:122 | definition: the single user message holding the cluster's prompt |
| Clusters.SummariseCluster | sprint_engine.py:117-122 | one loop step of `label_clusters`: the summary is the model's reply to the single user message holding the cluster's prompt; its ensures is the step's definition, and what the loop promises is in Clusters.LabelClusters |
| Clusters.AddSummary | sprint_engine.py:122 | storing one more label keeps the dictionary holding exactly the labels done, each with its reply |
| Clusters.LabelClusters | sprint_engine.py:114-123 | the keys are exactly the distinct labels and each value is the model's reply to that label's prompt |
| Sprint.GetReaction | sprint_engine.py:90-96 | one loop step of `run_sprint`: the reaction is the intended parse (Reactions.ParseReaction) of the model's reply to the persona's two messages; its ensures is the step's definition; where the code as written raises instead, see Sprint.AsWrittenLoopAgrees |
| Sprint.ReplyTo | sprint_engine.py:96 | definition: the model's reply to the persona's two messages |
| Sprint.ReactionOf | sprint_engine.py:90-105 | definition: the intended parse of the model's reply to the persona's prompt |
| Sprint.ProgressAt | sprint_engine.py:146 | definition: the report after `idx` of `total` personas, fraction idx/total and text "idx/total personas" |
| Sprint.ProgressReports | sprint_engine.py:145-146 | one report per persona, the `k`-th being (k+1)/total with text "k+1/total personas" |
| Sprint.ProgressIncreases | sprint_engine.py:146 | the reported fractions strictly increase, lie in (0, 1], and end at 1 |
| Sprint.ProgressAppend | sprint_engine.py:145-146 | one more iteration appends its report |
| Sprint.CollectReactions | sprint_engine.py:137-146 | feedbacks and scores are the intended-parse reactions in persona order, which are the source's whenever its loop completes (Sprint.AsWrittenLoopAgrees); reports are made exactly when a callback is given |
| Sprint.Unparsable | sprint_engine.py:97-98 | definition: a reply with "INTENT_SCORE" but without "INTENT_SCORE:", on which the code as written raises |
| Sprint.AsWrittenOutcomes | sprint_engine.py:140-141 | one as-written parse per persona, in persona order |
| Sprint.AsWrittenReactions | sprint_engine.py:140-143 | definition of the source's own loop: the as-written parses collected in order, ending at the first ValueError |
| Sprint.AsWrittenLoopAgrees | sprint_engine.py:137-143 | the source's loop, parsing as written, gets through every persona exactly when no reply has "INTENT_SCORE" without "INTENT_SCORE:", and then yields exactly the reactions the model collects |
| Sprint.OutcomeAgrees | sprint_engine.py:96-99 | for one persona, `get_reaction` as written returns unless the reply has "INTENT_SCORE" without "INTENT_SCORE:", and then returns the model's reaction |
| Sprint.CollectAgrees | sprint_engine.py:140-143 | a loop whose first raised error ends it completes exactly when no step raises, and then collects the agreed values |
| Sprint.ReactionsAppend | sprint_engine.py:141-143 | one more iteration appends its feedback and score |
| Sprint.ScoreSum | sprint_engine.py:161 | definition: the sum of the scores whose label is `lab` |
| Sprint.LabelCount | sprint_engine.py:161 | the size of a cluster is positive exactly when the label occurs, and at most the number of rows |
| Sprint.ClusterMean | sprint_engine.py:161 | definition: the per-cluster mean intent, the sum of the labelled scores over their count; its bounds are in Sprint.ClusterMeanBounds and Sprint.ConstantClusterMean |
| Sprint.TimesIsProduct | sprint_engine.py:161 | adding a value `n` times is multiplying it by `n` |
| Sprint.ScoreSumBounds | sprint_engine.py:161 | a cluster's score sum lies between its size times the least and times the greatest of its scores |
| Sprint.ClusterMeanBounds | sprint_engine.py:161 | a cluster's mean lies between the least and greatest of its scores |
| Sprint.ConstantClusterMean | sprint_engine.py:161 | a cluster whose scores are all `v` has mean `v` |
| Sprint.Mean | sprint_engine.py:181 | definition: `np.mean(scores)`, the sum of the scores over their number; its bounds are in Sprint.MeanBounds |
| Sprint.SumBounds | sprint_engine.py:181 | the sum of the scores lies between their number times the least and times the greatest |
| Sprint.MeanBounds | sprint_engine.py:181 | the overall mean lies between the least and greatest score |
| Sprint.ClusterMeans | sprint_engine.py:160-170 | one row per distinct label, in ascending order |
| Sprint.ClusterMeansRows | sprint_engine.py:160-170 | rows strictly ascending by cluster, one for each label present, each with its cluster's mean and summary |
| Sprint.UniformClusterMeans | sprint_engine.py:160-170 | when every score is `v`, every cluster's mean is `v` |
| Sprint.SummaryHead | sprint_engine.py:181 | definition: the summary's head, "**Overall mean intent:** <mean>/10" and the "**Key clusters:**" heading |
| Sprint.Bullet | sprint_engine.py:183 | definition: one cluster's line, "- **Cluster <c>** — <summary>" |
| Sprint.Bullets | sprint_engine.py:182-183 | definition: the bullets of the clusters of `order`, in that order |
| Sprint.BuildSummary | sprint_engine.py:181-183 | the summary is the head followed by one bullet per cluster, in dictionary order |
| Sprint.BulletsAppend | sprint_engine.py:182-183 | one more iteration appends that cluster's bullet |
| Sprint.BulletsListEveryCluster | sprint_engine.py:182-183 | every cluster's bullet occurs in the bullets |
| Sprint.SummaryListsEveryCluster | sprint_engine.py:181-183 | the summary starts with the overall-mean head and contains every cluster's bullet |
| Sprint.ReactionsOf | sprint_engine.py:140-143 | one reaction per persona, in persona order |
| Sprint.Feedbacks | sprint_engine.py:142 | the feedback of each reaction, in order |
| Sprint.Scores | sprint_engine.py:143 | the score of each reaction, in order |
| Sprint.SummaryMap | sprint_engine.py:114-123 | the dictionary `label_clusters` returns has exactly the labels as keys |
| Sprint.SummariesAreSummaryMap | sprint_engine.py:114-123 | what LabelClusters promises fixes the dictionary |
| Sprint.Table | sprint_engine.py:151-158 | row `i` holds persona `i`'s name, label, score and feedback |
| Sprint.TableRows | sprint_engine.py:151-158 | in a run's report, row `i` holds persona `i`'s name, its cluster label, and the score and feedback parsed from the model's reply to its prompt |
| Sprint.LabelsOf | sprint_engine.py:148 | definition: the clustering oracle's labels for the run's feedbacks |
| Sprint.SprintReport | sprint_engine.py:148-187 | definition of the whole report after persona generation: the reactions, labels, summaries, table, optional cluster means and progress reports; its properties are in Sprint.TableRows, Sprint.UniformScoresGiveUniformMeans, Sprint.ReportListsEveryCluster and Sprint.AtMostClusterCountClusters |
| Sprint.UniformScoresGiveUniformMeans | sprint_engine.py:160-183 | when every reply scores `v`, every cluster's mean intent and the overall mean are `v` |
| Sprint.ReportListsEveryCluster | sprint_engine.py:148-183 | the report's summary starts with the overall-mean head and has, for each label the clustering produced, the bullet with the model's theme for it |
| Sprint.IncreasingWithin | sprint_engine.py:110 | an ascending list of integers in [lo, hi) has at most hi - lo elements |
| Sprint.AtMostClusterCountClusters | sprint_engine.py:108-111 | with KMeans labels below 5, there are at most 5 clusters, so at most 5 rows of cluster means |
| Sprint.AssembleReport | sprint_engine.py:148-187 | clustering, summaries, table, cluster means and summary text together give SprintReport |
| Sprint.RunSprint | sprint_engine.py:126-187 | with total services and the intended parse, fails exactly when persona generation raises, with its error; otherwise 50 personas and the report SprintReport of them and the extracted creative |

## Left out

- The language model, embeddings, KMeans, `mimetypes`, UTF-8 decoding, python-docx and PyPDF2 are parameters. `tmf_synth_utils.py` and `streamlit_app.py` are not part of this model.
- The model treats the language model as a function of the conversation, so two identical conversations get the same reply. A real model may answer them differently.
- Randomness is an oracle of draws, one per iteration. The requires clauses ask that each draw obeys the contract of `random.choice`, `randint` and `uniform`.
- Floating point: incomes, progress fractions and means are exact reals. Float rounding, and `float()` results such as nan or infinity, are not modelled. The `.1f` formatting of the overall mean is a parameter.
- Python's `float()` is a parameter that either parses or fails. Any other exception it might raise is not modelled.
- A reader library that raises on a corrupt file is not modelled. Neither is a missing `.name` attribute or an unreadable upload.
- `lower()` is modelled for ASCII letters only. `Path(...).name` is modelled for POSIX paths only.
- `grp.get(gender)` treats a present but empty persona as absent. The model's `Option` has no such case.
- `REACTION_TEMPLATE.format(**persona, ...)` raises when a persona has a key named "creative". The model does not capture this.
- A persona missing a key the code reads is not modelled. The model's persona record always has a name, age, occupation, location and income.
- The plotly chart is left out. So are the pandas types of the table and the cluster means, and the streamlit progress display; the model records only the reports made.
- The model calls the clustering oracle on the collected feedbacks and requires one label per feedback. KMeans's range promise, labels below 5, is used only in Sprint.AtMostClusterCountClusters.
- Sprint.BuildSummary: the model takes the dictionary's iteration order as an explicit list, SortedDistinct(labels), because a Dafny map has no order. That list is the insertion order `label_clusters` uses.
- Sprint.RunSprint: the whole run uses the intended parse, so it does not fail on a reply with "INTENT_SCORE" but without "INTENT_SCORE:". The source's `get_reaction` raises ValueError on such a reply (sprint_engine.py:97-98) and `run_sprint` does not catch it (sprint_engine.py:140-141), so the source's run ends there. Sprint.AsWrittenLoopAgrees states exactly when the source's loop completes, and that it then collects the same reactions as the model; Findings gives the discrepancy.
- Sprint.RunSprint: `call_gpt` and `embed_texts` (tmf_synth_utils.py:10-18) can raise on a network or API error, and so can KMeans, which aborts the source's run. The model's services are total functions, so its "fails exactly when" covers persona generation only; service failures are not modelled.
- Personas.MutatePersona: its contract states only when it fails. What a successful variant looks like is stated separately, in Personas.MutationIsVariant, so the loop proof does not carry it.
- Extraction.PdfText: the contract states only the missing-library case. The joined page text is Join over the pages with an empty string for a page without text, exactly as the body reads.
- Extraction.PathName: only the absence of '/' is stated on the function. Its behaviour is stated in Extraction.PathNameOfJoin and Extraction.PathNameOfLower.

## Findings

| source | as written | input that shows it | evidently intended | confidence | as-written member | corrected member |
|---|---|---|---|---|---|---|
| sprint_engine.py:97-99 | the reply is tested for "INTENT_SCORE" but split on "INTENT_SCORE:", and the two-name unpacking sits outside the `try`, so a reply with the word but without the colon raises ValueError | the reply "INTENT_SCORE 7" | test for the same "INTENT_SCORE:" the split uses, so such a reply falls back to the whole stripped text and score 0.0 | not executed | Reactions.ParseReactionAsWritten, Reactions.MissingColonRaises | Reactions.ParseReaction |
