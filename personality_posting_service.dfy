/** The posting choices of services/personality_posting_service.py: whether a
    post follows the trends or the bot's memory, which trend is roasted
    (weighted by count and kind), and which style is used. Every
    `random.random()` and `random.choice` is an explicit draw; the research and
    memory query outcomes are inputs. */
module PersonalityPosting {
  import opened Common
  import opened BluskyTrends
  import RoastAgent

  /** `posting_style`. */
  const TrendFocus: real := 0.7
  const SassLevel: real := 0.8

  const FallbackTopics: seq<string> := ["internet culture", "social media", "tech trends", "digital life", "online drama"]

  // ---------------------------------------------------------------------------
  // _select_trend

  /** A trend's weight: its count, scaled by 1.2 for a hashtag and by 1.5 for
      a capitalised phrase. */
  function Weight(e: TrendEntry): (w: real)
    ensures w >= e.count as real >= 0.0
    ensures e.kind == Hashtag ==> w == e.count as real * 1.2
    ensures e.kind == Topic ==> w == e.count as real * 1.5
    ensures e.kind == Word ==> w == e.count as real
  {
    match e.kind
    case Hashtag => e.count as real * 1.2
    case Topic => e.count as real * 1.5
    case Word => e.count as real
  }

  /** The sum of the weights. */
  function Total(ts: seq<TrendEntry>): (t: real)
    ensures t >= 0.0
  {
    if ts == [] then 0.0 else Total(ts[..|ts| - 1]) + Weight(ts[|ts| - 1])
  }

  /** The cumulative weight up to and including position `j`. */
  function Cumulative(ts: seq<TrendEntry>, j: nat): real
    requires j < |ts|
  {
    Total(ts[..j + 1])
  }

  lemma TotalStep(ts: seq<TrendEntry>, i: nat)
    requires i < |ts|
    ensures Total(ts[..i + 1]) == Total(ts[..i]) + Weight(ts[i])
  {
    assert ts[..i + 1][..i] == ts[..i];
  }

  /** Cumulative weights never decrease. */
  lemma {:induction false} TotalPrefixBelow(ts: seq<TrendEntry>, i: nat)
    requires i <= |ts|
    ensures Total(ts[..i]) <= Total(ts)
    decreases |ts| - i
  {
    if i < |ts| {
      TotalStep(ts, i);
      TotalPrefixBelow(ts, i + 1);
    } else {
      assert ts[..i] == ts;
    }
  }

  /** The first position from `i` on whose cumulative weight exceeds `r`, or
      `|ts|` when there is none. */
  function FirstAbove(ts: seq<TrendEntry>, r: real, i: nat): (k: nat)
    requires i <= |ts|
    decreases |ts| - i
  {
    if i == |ts| then |ts|
    else if Cumulative(ts, i) > r then i
    else FirstAbove(ts, r, i + 1)
  }

  lemma {:induction false} FirstAboveSpec(ts: seq<TrendEntry>, r: real, i: nat)
    requires i <= |ts|
    ensures i <= FirstAbove(ts, r, i) <= |ts|
    ensures FirstAbove(ts, r, i) < |ts| ==> Cumulative(ts, FirstAbove(ts, r, i)) > r
    ensures forall j :: i <= j < FirstAbove(ts, r, i) ==> Cumulative(ts, j) <= r
    decreases |ts| - i
  {
    if i < |ts| && Cumulative(ts, i) <= r {
      FirstAboveSpec(ts, r, i + 1);
    }
  }

  /** What `_select_trend` returns for the draw `r`. */
  function SelectTrendOf(trends: seq<TrendEntry>, r: real): TrendEntry
    requires |trends| > 0
  {
    var k := FirstAbove(trends, r, 0);
    if k < |trends| then trends[k] else trends[0]
  }

  /** `_select_trend`: the first trend whose cumulative weight is strictly
      above the draw, and the first trend when none is; always one of the
      trends. A draw below the total always selects by weight; a draw at or
      above it falls back to the first trend. */
  lemma SelectTrendSpec(trends: seq<TrendEntry>, r: real)
    requires |trends| > 0
    ensures SelectTrendOf(trends, r) in trends
    ensures var k := FirstAbove(trends, r, 0);
            k < |trends| ==> SelectTrendOf(trends, r) == trends[k] && Cumulative(trends, k) > r &&
                             forall j :: 0 <= j < k ==> Cumulative(trends, j) <= r
    ensures (forall j :: 0 <= j < |trends| ==> Cumulative(trends, j) <= r) ==> SelectTrendOf(trends, r) == trends[0]
    ensures r < Total(trends) ==> FirstAbove(trends, r, 0) < |trends|
    ensures r >= Total(trends) ==> SelectTrendOf(trends, r) == trends[0]
  {
    FirstAboveSpec(trends, r, 0);
    var k := FirstAbove(trends, r, 0);
    if k == |trends| {
      assert trends[..|trends|] == trends;
      assert Cumulative(trends, |trends| - 1) <= r;
    }
    if r >= Total(trends) && k < |trends| {
      TotalPrefixBelow(trends, k + 1);
      assert false;
    }
  }

  /** With every count zero the first trend is chosen. */
  lemma ZeroCountsPickFirst(trends: seq<TrendEntry>, r: real)
    requires |trends| > 0 && r >= 0.0
    requires forall k :: 0 <= k < |trends| ==> trends[k].count == 0
    ensures SelectTrendOf(trends, r) == trends[0]
  {
    ZeroTotal(trends);
    SelectTrendSpec(trends, r);
  }

  lemma {:induction false} ZeroTotal(ts: seq<TrendEntry>)
    requires forall k :: 0 <= k < |ts| ==> ts[k].count == 0
    ensures Total(ts) == 0.0
  {
    if ts != [] {
      ZeroTotal(ts[..|ts| - 1]);
    }
  }

  /** The weighting loop of `_select_trend`. */
  method WeighTrends(trends: seq<TrendEntry>) returns (weighted: seq<(TrendEntry, real)>)
    ensures |weighted| == |trends|
    ensures forall k :: 0 <= k < |trends| ==> weighted[k] == (trends[k], Weight(trends[k]))
  {
    weighted := [];
    for i := 0 to |trends|
      invariant |weighted| == i
      invariant forall k :: 0 <= k < i ==> weighted[k] == (trends[k], Weight(trends[k]))
    {
      var weight := trends[i].count as real;
      if trends[i].kind == Hashtag {
        weight := weight * 1.2;
      } else if trends[i].kind == Topic {
        weight := weight * 1.5;
      }
      weighted := weighted + [(trends[i], weight)];
    }
  }

  /** `random.uniform(0, total)` for the fraction `u` of the way from 0 to
      `total`. */
  function Uniform(total: real, u: real): real
  {
    total * u
  }

  /** `_select_trend`, with the uniform draw given as the fraction `u`. */
  method SelectTrend(trends: seq<TrendEntry>, u: real) returns (t: TrendEntry)
    requires |trends| > 0
    ensures t == SelectTrendOf(trends, Uniform(Total(trends), u))
    ensures t in trends
  {
    var weighted := WeighTrends(trends);
    var r := Uniform(Total(trends), u);
    var current := 0.0;
    var i := 0;
    while i < |weighted|
      invariant 0 <= i <= |trends|
      invariant current == Total(trends[..i])
      invariant FirstAbove(trends, r, 0) == FirstAbove(trends, r, i)
    {
      TotalStep(trends, i);
      assert weighted[i] == (trends[i], Weight(trends[i]));
      current := current + weighted[i].1;
      if current > r {
        assert FirstAbove(trends, r, i) == i;
        assert SelectTrendOf(trends, r) == trends[i];
        return weighted[i].0;
      }
      i := i + 1;
    }
    t := trends[0];
  }

  // ---------------------------------------------------------------------------
  // _generate_content

  /** The draws one post uses, in the order the service makes them. */
  datatype Draws = Draws(
    strategy: real,      // random.random() against trend_focus
    uniform: real,       // random.uniform(0, total), as a fraction of the total
    style: real,         // random.random() against sass_level
    memoryPick: nat,     // random.choice over the remembered documents
    fallbackPick: nat,   // random.choice over the fallback topics
    template: nat)       // random.choice over the templates in generate_reply

  /** What the memory collection's query gave: an error, or the lists of
      documents (one list per query text). */
  datatype MemoryQuery = QueryFailed | Documents(docs: seq<seq<string>>)

  /** `_generate_fallback_content`. */
  function FallbackContent(d: Draws): string
  {
    RoastAgent.GenerateReply(FallbackTopics[d.fallbackPick % |FallbackTopics|], "savage", d.template)
  }

  /** The style of a trend-based post. */
  function TrendStyle(d: Draws): (style: string)
    ensures style == "savage" <==> d.style < SassLevel
    ensures style == "savage" || style == "witty"
  {
    if d.style < SassLevel then "savage" else "witty"
  }

  /** `_generate_trend_based_content`. */
  function TrendContent(research: Research, d: Draws): string
  {
    if research.ResearchError? || research.trends == [] then FallbackContent(d)
    else
      var selected := SelectTrendOf(research.trends, Uniform(Total(research.trends), d.uniform));
      RoastAgent.GenerateReply(selected.topic, TrendStyle(d), d.template)
  }

  /** `_generate_memory_based_content`: a query error, an empty result and an
      empty first list (where `random.choice` raises) all end in the fallback. */
  function MemoryContent(memory: MemoryQuery, d: Draws): string
  {
    if memory.Documents? && memory.docs != [] && memory.docs[0] != [] then
      var past := memory.docs[0][d.memoryPick % |memory.docs[0]|];
      RoastAgent.GenerateReply("Remembering " + past, "savage", d.template)
    else FallbackContent(d)
  }

  /** `_generate_content`. */
  function GenerateContent(research: Research, memory: MemoryQuery, d: Draws): (content: string)
  {
    if d.strategy < TrendFocus then TrendContent(research, d) else MemoryContent(memory, d)
  }

  /** The branch rules of `_generate_content`: trends below the focus draw,
      memory otherwise; a failed or empty research ends in the fallback;
      otherwise the selected trend is roasted, savagely below the sass draw
      and wittily above it. */
  lemma GenerateContentSpec(research: Research, memory: MemoryQuery, d: Draws)
    ensures d.strategy >= TrendFocus ==> GenerateContent(research, memory, d) == MemoryContent(memory, d)
    ensures d.strategy < TrendFocus && (research.ResearchError? || research.trends == []) ==>
              GenerateContent(research, memory, d) == FallbackContent(d)
  {
  }

  lemma GenerateTrendContentSpec(research: Research, memory: MemoryQuery, d: Draws)
    ensures d.strategy < TrendFocus && research.Research? && research.trends != [] ==>
              var selected := SelectTrendOf(research.trends, Uniform(Total(research.trends), d.uniform));
              selected in research.trends &&
              GenerateContent(research, memory, d) ==
                RoastAgent.GenerateReply(selected.topic, TrendStyle(d), d.template)
  {
    if research.Research? && research.trends != [] {
      SelectTrendSpec(research.trends, Uniform(Total(research.trends), d.uniform));
    }
  }

  /** A word followed by whitespace is the first word of the text. */
  lemma {:induction false} TakeWordBeforeSpace(w: string, rest: string)
    requires forall i :: 0 <= i < |w| ==> !IsSpace(w[i])
    requires rest != [] && IsSpace(rest[0])
    ensures TakeWord(w + rest) == w
  {
    if w == [] {
      assert w + rest == rest;
    } else {
      assert (w + rest)[1..] == w[1..] + rest;
      TakeWordBeforeSpace(w[1..], rest);
      assert w == [w[0]] + w[1..];
    }
  }

  /** Every memory-based post roasts the word "Remembering": the remembered
      text only follows it, so the first-word topic never comes from the
      past post. */
  lemma MemoryTopicIsRemembering(past: string)
    ensures RoastAgent.ExtractTopic("Remembering " + past) == "Remembering"
  {
    var w := "Remembering";
    assert "Remembering " + past == w + ([' '] + past);
    assert forall i :: 0 <= i < |w| ==> !IsSpace(w[i]);
    TakeWordBeforeSpace(w, [' '] + past);
    assert TrimStart(w + ([' '] + past)) == w + ([' '] + past);
  }

  /** With remembered documents, a memory-based post is a savage roast about
      "Remembering"; without them it is the fallback. */
  lemma MemoryContentSpec(memory: MemoryQuery, d: Draws)
    ensures (memory.QueryFailed? || memory.docs == [] || memory.docs[0] == []) ==> MemoryContent(memory, d) == FallbackContent(d)
    ensures memory.Documents? && memory.docs != [] && memory.docs[0] != [] ==>
              var t := RoastAgent.SavageTemplates[d.template % 5];
              MemoryContent(memory, d) == t.0 + "Remembering" + t.1
  {
    if memory.Documents? && memory.docs != [] && memory.docs[0] != [] {
      var past := memory.docs[0][d.memoryPick % |memory.docs[0]|];
      MemoryTopicIsRemembering(past);
      RoastAgent.GenerateReplySpec("Remembering " + past, "savage", d.template);
    }
  }

  // ---------------------------------------------------------------------------
  // generate_and_post

  /** What `generate_and_post` sends and answers: the text handed to
      `post_skeet`, if it is reached, and the uri it returns. */
  datatype PostResult = PostResult(sent: Option<string>, uri: Option<string>)

  /** `generate_and_post`. Every generation path builds the reply through
      `self.roast_agent.Tweet(...)`; `agentHasTweet` says whether the agent it
      was given has that attribute. Without it the generation raises
      AttributeError, nothing is posted and the answer is None. Otherwise the
      generated content is posted, and the answer is the uri, or None when
      posting fails. Storing the memory never changes the answer, as its
      errors are swallowed. */
  function GenerateAndPost(agentHasTweet: bool, research: Research, memory: MemoryQuery, d: Draws,
                           posted: Result<string>): (r: PostResult)
    ensures r.sent.Some? <==> agentHasTweet
    ensures r.sent.Some? ==> r.sent.value == GenerateContent(research, memory, d)
    ensures r.uri.Some? <==> agentHasTweet && posted.Ok?
    ensures r.uri.Some? ==> r.uri.value == posted.value
  {
    if !agentHasTweet then PostResult(None, None)
    else
      var content := GenerateContent(research, memory, d);
      PostResult(Some(content), if posted.Ok? then Some(posted.value) else None)
  }

  /** What reaches `post_skeet` when the agent can build its input: below the
      focus draw a roast of the weighted trend pick (or the fallback when
      research fails or finds nothing); above it a savage roast about
      "Remembering" when the memory holds documents, the fallback otherwise. */
  lemma PostedContentSpec(research: Research, memory: MemoryQuery, d: Draws, posted: Result<string>)
    ensures var r := GenerateAndPost(true, research, memory, d, posted);
            r.sent.Some? &&
            (d.strategy < TrendFocus && (research.ResearchError? || research.trends == []) ==>
               r.sent.value == FallbackContent(d)) &&
            (d.strategy < TrendFocus && research.Research? && research.trends != [] ==>
               var selected := SelectTrendOf(research.trends, Uniform(Total(research.trends), d.uniform));
               selected in research.trends &&
               r.sent.value == RoastAgent.GenerateReply(selected.topic, TrendStyle(d), d.template)) &&
            (d.strategy >= TrendFocus && memory.Documents? && memory.docs != [] && memory.docs[0] != [] ==>
               var t := RoastAgent.SavageTemplates[d.template % 5];
               r.sent.value == t.0 + "Remembering" + t.1) &&
            (d.strategy >= TrendFocus && !(memory.Documents? && memory.docs != [] && memory.docs[0] != []) ==>
               r.sent.value == FallbackContent(d))
  {
    GenerateContentSpec(research, memory, d);
    GenerateTrendContentSpec(research, memory, d);
    MemoryContentSpec(memory, d);
  }
}
