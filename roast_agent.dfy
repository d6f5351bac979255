/** The template roaster of agent/roast_agent.py: a reply is one of five
    templates of the chosen style with `{topic}` filled in by the first word of
    the post. Each template is kept as the text before and the text after its
    single `{topic}` field. `random.choice` is the explicit draw `choice`, which
    selects the template `choice % 5`. */
module RoastAgent {
  import opened Common

  const Placeholder: string := "{topic}"

  /** The five templates of each style. */
  const SavageTemplates: seq<(string, string)> := [
    ("Imagine thinking ", " is your personality trait \U{1F480}"),
    ("Your take on ", " is so basic, water feels spicy in comparison"),
    ("Tell me you don't understand ", " without telling me"),
    ("This ", " take is giving 'I just discovered the internet'"),
    ("POV: You thought your ", " hot take was revolutionary")
  ]

  const WittyTemplates: seq<(string, string)> := [
    ("Approaching ", " with the confidence of a mediocre tech bro"),
    ("Your ", " energy is very 'participation trophy' core"),
    ("Living proof that you can be passionate about ", " without understanding it"),
    ("Plot twist: ", " isn't your strong suit"),
    ("Breaking: Local user discovers ", ", misses point entirely")
  ]

  const TrendAwareTemplates: seq<(string, string)> := [
    ("Oh great, another ", " expert just dropped their groundbreaking study \U{1F52C}"),
    ("Loading ", " understanding... still at 0%"),
    ("Welcome to '", " Takes That Nobody Asked For'"),
    ("Currently accepting applications for better ", " opinions"),
    ("This ", " discourse is giving very 2019 energy")
  ]

  /** A template as the source writes it: the placeholder between its two parts. */
  function TemplateText(t: (string, string)): string
  {
    t.0 + Placeholder + t.1
  }

  /** The keys of `roast_templates`. */
  predicate KnownStyle(style: string)
  {
    style == "savage" || style == "witty" || style == "trend_aware"
  }

  /** An unknown style falls back to "savage". */
  function EffectiveStyle(style: string): (s: string)
    ensures KnownStyle(s)
    ensures KnownStyle(style) ==> s == style
    ensures !KnownStyle(style) ==> s == "savage"
  {
    if KnownStyle(style) then style else "savage"
  }

  function Templates(style: string): (ts: seq<(string, string)>)
    requires KnownStyle(style)
  {
    if style == "savage" then SavageTemplates
    else if style == "witty" then WittyTemplates
    else TrendAwareTemplates
  }

  /** Every style has five templates. */
  lemma FiveTemplates(style: string)
    requires KnownStyle(style)
    ensures |Templates(style)| == 5
  {
  }

  /** Every template holds the `{topic}` field, right after its first part. */
  lemma TemplateHasField(t: (string, string))
    ensures OccursAt(TemplateText(t), Placeholder, |t.0|)
  {
    assert TemplateText(t)[|t.0|..|t.0| + |Placeholder|] == Placeholder;
  }

  /** `template.format(topic=topic)` for a template whose one field is
      `{topic}`: the field is replaced by the value. */
  function Fill(t: (string, string), topic: string): (r: string)
    ensures |r| == |TemplateText(t)| - |Placeholder| + |topic|
    ensures r[..|t.0|] == TemplateText(t)[..|t.0|]
    ensures r[|t.0| + |topic|..] == TemplateText(t)[|t.0| + |Placeholder|..]
  {
    t.0 + topic + t.1
  }

  // ---------------------------------------------------------------------------
  // Topic and reply

  /** `_extract_topic`: the first whitespace-separated word when it is longer
      than three characters, "this" otherwise and for a text without words. */
  function ExtractTopic(text: string): (topic: string)
    ensures Strip(text) == [] ==> topic == "this"
    ensures TrimStart(text) != [] && |TakeWord(TrimStart(text))| > 3 ==> topic == TakeWord(TrimStart(text))
    ensures TrimStart(text) == [] || |TakeWord(TrimStart(text))| <= 3 ==> topic == "this"
    ensures topic != "this" ==> |topic| > 3 && topic == TakeWord(TrimStart(text))
    ensures topic == "this" || (forall i :: 0 <= i < |topic| ==> !IsSpace(topic[i]))
  {
    var rest := TrimStart(text);
    if rest == [] then "this"
    else
      var first := TakeWord(rest);
      if |first| > 3 then first else "this"
  }

  /** `text[i..j]` is the first word `text.split()` yields: whitespace only
      before it, none inside it, and whitespace or the end of the text after it. */
  ghost predicate FirstWordSpan(text: string, i: nat, j: nat)
  {
    && i < j <= |text|
    && (forall k :: 0 <= k < i ==> IsSpace(text[k]))
    && (forall k :: i <= k < j ==> !IsSpace(text[k]))
    && (j == |text| || IsSpace(text[j]))
  }

  /** The topic is the first word of the text when that word is longer than
      three characters, and "this" when it is not. */
  lemma ExtractTopicFirstWord(text: string, i: nat, j: nat)
    requires FirstWordSpan(text, i, j)
    ensures ExtractTopic(text) == if j - i > 3 then text[i..j] else "this"
  {
    var rest := TrimStart(text);
    var start := |text| - |rest|;
    assert !IsSpace(text[i]);
    assert i >= start;
    assert rest != [] && rest[0] == text[start];
    assert i == start;
    var w := TakeWord(rest);
    assert rest == text[i..];
    assert forall k :: 0 <= k < |rest| ==> rest[k] == text[i + k];
    assert forall k :: 0 <= k < |w| ==> w[k] == rest[k];
    assert w == text[i..j];
  }

  /** A text that is all whitespace, or empty, has the topic "this". */
  lemma ExtractTopicNoWord(text: string)
    requires forall k :: 0 <= k < |text| ==> IsSpace(text[k])
    ensures ExtractTopic(text) == "this"
  {
    TrimStartAllSpace(text);
  }

  /** A text without any whitespace is itself the topic when it is longer than
      three characters. */
  lemma ExtractTopicSingleWord(text: string)
    requires |text| > 3 && forall i :: 0 <= i < |text| ==> !IsSpace(text[i])
    ensures ExtractTopic(text) == text
  {
    assert TrimStart(text) == text;
  }

  /** `generate_reply`: the template `choice % 5` of the effective style, with
      the topic of the text filled in. */
  function GenerateReply(text: string, style: string, choice: nat): (reply: string)
  {
    var s := EffectiveStyle(style);
    Fill(Templates(s)[choice % 5], ExtractTopic(text))
  }

  /** The reply is one of the five templates of the effective style around the
      extracted topic, so the topic always appears in it. */
  lemma GenerateReplySpec(text: string, style: string, choice: nat)
    ensures var t := Templates(EffectiveStyle(style))[choice % 5];
            GenerateReply(text, style, choice) == t.0 + ExtractTopic(text) + t.1
    ensures OccursAt(GenerateReply(text, style, choice), ExtractTopic(text),
                     |Templates(EffectiveStyle(style))[choice % 5].0|)
  {
    var s := EffectiveStyle(style);
    var t := Templates(s)[choice % 5];
    var topic := ExtractTopic(text);
    var r := GenerateReply(text, style, choice);
    assert r == t.0 + topic + t.1;
    assert r[|t.0|..|t.0| + |topic|] == topic;
    assert OccursAt(r, topic, |t.0|);
  }

  /** An unknown style answers exactly as "savage" does. */
  lemma UnknownStyleIsSavage(text: string, style: string, choice: nat)
    requires !KnownStyle(style)
    ensures GenerateReply(text, style, choice) == GenerateReply(text, "savage", choice)
  {
  }
}
