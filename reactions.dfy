/** The reaction request of `get_reaction`: the prompt it renders and the
    parse of the model's reply into feedback and an intent score. Python's
    `float()` is the partial function `parseFloat`. */
module Reactions {
  import opened Wrappers
  import opened Text
  import opened Personas

  const ScoreWord: string := "INTENT_SCORE"
  const ScoreMarker: string := "INTENT_SCORE:"

  /** The system instruction sent with every reaction prompt. */
  const SystemMessage: string := "You are simulating an investor responding in a conversational, candid tone."

  /** What one persona said: the feedback paragraph and its intent score. */
  datatype Reaction = Reaction(feedback: string, score: real)

  /** `feedback, score_line = text.rsplit("INTENT_SCORE:", 1)` raising
      "not enough values to unpack" when the split finds nothing. */
  datatype ReactionError = NotEnoughValuesToUnpack

  /** The fixed instructions between the persona line and the creative. */
  const PromptInstructions: string :=
    "Below is a marketing creative you can read. Give your honest reaction in 2 short paragraphs, then\n"
    + "score your likelihood of taking the CTA from 0\U{2013}10 on its own line in the form:\n"
    + "INTENT_SCORE: <number>\n\n"

  /** The first line of the prompt, which introduces the persona. */
  function PersonaLine(p: Persona): string {
    "You are " + p.name + ", a " + IntToString(p.age) + "-year-old " + p.occupation + " from " + p.location + ".\n"
  }

  /** The creative between its two dashed rules, closing the prompt. */
  function CreativeBlock(creative: string): string {
    "CREATIVE:\n---------\n" + creative + "\n---------\n"
  }

  /** `REACTION_TEMPLATE.format(**persona, creative=creative_txt)`: the
      persona line, then the fixed instructions, then the creative block. */
  function ReactionPrompt(p: Persona, creative: string): (r: string)
    ensures StartsWith(r, PersonaLine(p))
    ensures EndsWith(r, CreativeBlock(creative))
    ensures |PersonaLine(p)| + |CreativeBlock(creative)| <= |r|
    ensures r[|PersonaLine(p)|..|r| - |CreativeBlock(creative)|] == PromptInstructions
  {
    var head := PersonaLine(p);
    var tail := CreativeBlock(creative);
    Framed(head, PromptInstructions, tail);
    head + PromptInstructions + tail
  }

  /** The three parts of `head + middle + tail` can be read back off it. */
  lemma Framed(head: string, middle: string, tail: string)
    ensures var r := head + middle + tail;
            && StartsWith(r, head) && EndsWith(r, tail)
            && r[|head|..|r| - |tail|] == middle
  {
    var r := head + middle + tail;
    assert r[..|head|] == head;
    assert r[|r| - |tail|..] == tail;
    assert r[|head|..|r| - |tail|] == middle;
  }

  /** The prompt determines the creative it was rendered with. */
  lemma PromptDeterminesCreative(p: Persona, c1: string, c2: string)
    requires ReactionPrompt(p, c1) == ReactionPrompt(p, c2)
    ensures c1 == c2
  {
    var r := ReactionPrompt(p, c1);
    var open := "CREATIVE:\n---------\n";
    var close := "\n---------\n";
    assert |CreativeBlock(c1)| == |open| + |c1| + |close|;
    assert |CreativeBlock(c2)| == |open| + |c2| + |close|;
    assert |r| == |PersonaLine(p)| + |PromptInstructions| + |CreativeBlock(c1)|;
    assert |r| == |PersonaLine(p)| + |PromptInstructions| + |CreativeBlock(c2)|;
    assert CreativeBlock(c1) == CreativeBlock(c2);
    assert c1 == CreativeBlock(c1)[|open|..|open| + |c1|];
    assert c2 == CreativeBlock(c2)[|open|..|open| + |c2|];
  }

  /** One chat message sent to the language model. */
  datatype Message = Message(role: string, content: string)

  /** The conversation `get_reaction` sends: the fixed system instruction,
      then the rendered prompt as the user's message. */
  function ReactionMessages(p: Persona, creative: string): (msgs: seq<Message>)
    ensures |msgs| == 2 && msgs[0] == Message("system", SystemMessage)
    ensures msgs[1] == Message("user", ReactionPrompt(p, creative))
  {
    [Message("system", SystemMessage), Message("user", ReactionPrompt(p, creative))]
  }

  /** `k` is the last index at which `pat` occurs in `s`. */
  ghost predicate LastOccurrence(s: string, pat: string, k: nat) {
    OccursAt(s, pat, k) && forall j: nat :: k < j ==> !OccursAt(s, pat, j)
  }

  /** The reply cut at a marker found at `k`: the stripped text before it,
      and the stripped remainder parsed as a number, 0.0 when that fails. */
  function SplitAt(text: string, k: nat, parseFloat: string -> Option<real>): Reaction
    requires k + |ScoreMarker| <= |text|
  {
    Reaction(Strip(text[..k]), parseFloat(Strip(text[k + |ScoreMarker|..])).GetOr(0.0))
  }

  /** An occurrence of the marker is an occurrence of the word. */
  lemma MarkerHasWord(text: string, k: nat)
    ensures OccursAt(text, ScoreMarker, k) ==> OccursAt(text, ScoreWord, k)
  {
    if OccursAt(text, ScoreMarker, k) {
      assert text[k..k + |ScoreWord|] == text[k..k + |ScoreMarker|][..|ScoreWord|];
    }
  }

  /** The parse exactly as `get_reaction` writes it: the test is on
      "INTENT_SCORE", the split on its last "INTENT_SCORE:". A reply with the
      word but never the colon fails, where Python raises. */
  function ParseReactionAsWritten(text: string, parseFloat: string -> Option<real>): (r: Result<Reaction, ReactionError>)
    ensures r.Failure? <==> Contains(text, ScoreWord) && !Contains(text, ScoreMarker)
    ensures !Contains(text, ScoreWord) ==> r == Success(Reaction(Strip(text), 0.0))
    ensures Contains(text, ScoreMarker) ==>
              exists k :: LastOccurrence(text, ScoreMarker, k) && r == Success(SplitAt(text, k, parseFloat))
  {
    if Contains(text, ScoreWord) then
      match LastIndexOf(text, ScoreMarker)
      case None => Failure(NotEnoughValuesToUnpack)
      case Some(k) => Success(SplitAt(text, k, parseFloat))
    else
      assert !Contains(text, ScoreMarker) by {
        if LastIndexOf(text, ScoreMarker).Some? {
          MarkerHasWord(text, LastIndexOf(text, ScoreMarker).value);
        }
      }
      Success(Reaction(Strip(text), 0.0))
  }

  /** The parse as evidently intended: the test is on the same
      "INTENT_SCORE:" the split uses, so every reply yields a reaction. */
  function ParseReaction(text: string, parseFloat: string -> Option<real>): (r: Reaction)
    ensures !Contains(text, ScoreMarker) ==> r == Reaction(Strip(text), 0.0)
    ensures Contains(text, ScoreMarker) ==>
              exists k :: LastOccurrence(text, ScoreMarker, k) && r == SplitAt(text, k, parseFloat)
  {
    match LastIndexOf(text, ScoreMarker)
    case None => Reaction(Strip(text), 0.0)
    case Some(k) => SplitAt(text, k, parseFloat)
  }

  /** Wherever the code as written returns, the intended parse gives the same
      reaction; the two differ only where the code as written raises. */
  lemma AsWrittenAgreesWhenItReturns(text: string, parseFloat: string -> Option<real>)
    ensures ParseReactionAsWritten(text, parseFloat).Success? ==>
              ParseReactionAsWritten(text, parseFloat).value == ParseReaction(text, parseFloat)
    ensures ParseReactionAsWritten(text, parseFloat).Failure? ==>
              ParseReaction(text, parseFloat) == Reaction(Strip(text), 0.0)
  {
    if LastIndexOf(text, ScoreMarker).Some? {
      MarkerHasWord(text, LastIndexOf(text, ScoreMarker).value);
    }
  }

  /** The reply "INTENT_SCORE 7" (the word without its colon) makes the code
      as written raise, while the intended parse falls back to score 0.0. */
  lemma MissingColonRaises(parseFloat: string -> Option<real>)
    ensures ParseReactionAsWritten("INTENT_SCORE 7", parseFloat) == Failure(NotEnoughValuesToUnpack)
    ensures ParseReaction("INTENT_SCORE 7", parseFloat) == Reaction(Strip("INTENT_SCORE 7"), 0.0)
  {
    var text := "INTENT_SCORE 7";
    assert text[0..|ScoreWord|] == ScoreWord;
    ContainsIff(text, ScoreWord, 0);
    assert forall j: nat :: !OccursAt(text, ScoreMarker, j) by {
      forall j: nat
        ensures !OccursAt(text, ScoreMarker, j)
      {
        if j + |ScoreMarker| <= |text| {
          assert text[j..j + |ScoreMarker|][0] == text[j];
          assert text[j..j + |ScoreMarker|][12] == text[j + 12];
        }
      }
    }
  }

  /** Two occurrences of the marker that overlap would put its ':' in the
      middle of one of them. */
  lemma OverlapColon(text: string, i: nat, j: nat)
    ensures OccursAt(text, ScoreMarker, i) && OccursAt(text, ScoreMarker, j) && i < j < i + |ScoreMarker| ==>
              ScoreMarker[i + 12 - j] == ':'
  {
    if OccursAt(text, ScoreMarker, i) && OccursAt(text, ScoreMarker, j) && i < j < i + |ScoreMarker| {
      assert text[i + 12] == text[i..i + |ScoreMarker|][12];
      assert text[i + 12] == text[j..j + |ScoreMarker|][i + 12 - j];
    }
  }

  /** Occurrences of the marker never overlap. */
  lemma MarkersApart(text: string, i: nat, j: nat)
    requires OccursAt(text, ScoreMarker, i) && OccursAt(text, ScoreMarker, j) && i < j
    ensures i + |ScoreMarker| <= j
  {
    OverlapColon(text, i, j);
    assert forall d :: 0 <= d < |ScoreMarker| - 1 ==> ScoreMarker[d] != ':';
  }

  /** An occurrence inside the tail `b` of `a + b` is an occurrence in `b`. */
  lemma OccursInTail(a: string, b: string, pat: string, j: nat)
    ensures OccursAt(a + b, pat, j) && |a| <= j ==> OccursAt(b, pat, j - |a|)
  {
    if OccursAt(a + b, pat, j) && |a| <= j {
      assert (a + b)[j..j + |pat|] == b[j - |a|..j - |a| + |pat|];
    }
  }

  /** A reply in the form the prompt asks for, feedback then the marker then
      a score line without another marker, parses back into exactly that
      feedback (stripped) and that score (0.0 when it is not a number), by
      the code as written and by the intended parse alike. */
  lemma ParseWellFormedReply(feedback: string, scoreLine: string, parseFloat: string -> Option<real>)
    requires !Contains(scoreLine, ScoreMarker)
    ensures var expected := Reaction(Strip(feedback), parseFloat(Strip(scoreLine)).GetOr(0.0));
            && ParseReaction(feedback + ScoreMarker + scoreLine, parseFloat) == expected
            && ParseReactionAsWritten(feedback + ScoreMarker + scoreLine, parseFloat) == Success(expected)
  {
    var text := feedback + ScoreMarker + scoreLine;
    var n := |feedback|;
    assert text[n..n + |ScoreMarker|] == ScoreMarker;
    assert OccursAt(text, ScoreMarker, n);
    var k := LastIndexOf(text, ScoreMarker).value;
    assert n <= k;
    OccursInTail(feedback + ScoreMarker, scoreLine, ScoreMarker, k);
    if n < k {
      MarkersApart(text, n, k);
    }
    assert k == n;
    assert text[..n] == feedback;
    assert text[n + |ScoreMarker|..] == scoreLine;
    MarkerHasWord(text, n);
    ContainsIff(text, ScoreWord, n);
  }

  /** A reply made of a feedback `t` followed by whitespace, the marker, and
      whitespace followed by a score text `u`: the parse recovers `t` and
      the number `u` denotes. */
  lemma ParsePaddedReply(t: string, b: string, c: string, u: string, parseFloat: string -> Option<real>)
    requires AllSpace(b) && AllSpace(c)
    requires t != [] ==> !IsSpace(t[0]) && !IsSpace(t[|t| - 1])
    requires u != [] ==> !IsSpace(u[0]) && !IsSpace(u[|u| - 1])
    requires !Contains(c + u, ScoreMarker)
    ensures ParseReaction((t + b) + ScoreMarker + (c + u), parseFloat) == Reaction(t, parseFloat(u).GetOr(0.0))
  {
    StripPadded([], t, b);
    assert [] + t + b == t + b;
    StripPadded(c, u, []);
    assert c + u + [] == c + u;
    ParseWellFormedReply(t + b, c + u, parseFloat);
  }

  /** The reply "Great idea.\nINTENT_SCORE: 7" gives feedback "Great idea."
      and score 7.0. */
  lemma GreatIdeaExample(parseFloat: string -> Option<real>)
    requires parseFloat("7") == Some(7.0)
    ensures ParseReaction(("Great idea." + "\n") + ScoreMarker + (" " + "7"), parseFloat) == Reaction("Great idea.", 7.0)
  {
    ParsePaddedReply("Great idea.", "\n", " ", "7", parseFloat);
  }

  /** The reply "I like it but INTENT_SCORE: banana" gives score 0.0 and the
      text before the marker as feedback. */
  lemma BananaExample(parseFloat: string -> Option<real>)
    requires parseFloat("banana") == None
    ensures ParseReaction(("I like it but" + " ") + ScoreMarker + (" " + "banana"), parseFloat) == Reaction("I like it but", 0.0)
  {
    ParsePaddedReply("I like it but", " ", " ", "banana", parseFloat);
  }
}
