/** The OpenAI client of clients/openai_client.py: the prompt it builds, the
    bounded retry around a chat completion, and the trend digest used for new
    posts. Each completion attempt's outcome is an input. */
module OpenAiClient {
  import opened Common

  /** How one completion attempt ends: with a message, by timing out, or with
      another exception. */
  datatype AttemptOutcome = Response(content: string) | Timeout | Failure(error: string)

  const MaxRetries: nat := 3
  const RoastLine: string := "\nROAST MODE ACTIVATED: Deliver a savage, no-holds-barred roast of the content."
  const TimeoutMessage: string := "TimeoutError: OpenAI API call timed out after multiple retries"

  /** The context of a reply: the post answered and, when known, its parent. */
  datatype ReplyContext = ReplyContext(currentPost: string, parentPost: Option<string>)

  /** The persona, with the roast instruction appended in roast mode. */
  function BasePrompt(persona: string, isRoast: bool): (r: string)
    ensures StartsWith(r, persona)
    ensures isRoast ==> r == persona + RoastLine
    ensures !isRoast ==> r == persona
  {
    if isRoast then persona + RoastLine else persona
  }

  /** `_create_prompt`: the base prompt, then the parent post when it is truthy,
      then the post answered. */
  function CreatePrompt(persona: string, context: ReplyContext, isRoast: bool): (r: string)
    ensures Truthy(context.parentPost) ==>
              r == BasePrompt(persona, isRoast) + "\n\nParent Post: " + context.parentPost.value +
                   "\nResponding to: " + context.currentPost
    ensures !Truthy(context.parentPost) ==>
              r == BasePrompt(persona, isRoast) + "\n\nResponding to: " + context.currentPost
  {
    var base := BasePrompt(persona, isRoast);
    if Truthy(context.parentPost) then
      base + "\n\nParent Post: " + context.parentPost.value + "\nResponding to: " + context.currentPost
    else base + "\n\nResponding to: " + context.currentPost
  }

  /** Every prompt opens with the persona and closes with the post answered. */
  lemma CreatePromptShape(persona: string, context: ReplyContext, isRoast: bool)
    ensures StartsWith(CreatePrompt(persona, context, isRoast), persona)
    ensures EndsWith(CreatePrompt(persona, context, isRoast), "Responding to: " + context.currentPost)
  {
    var prompt := CreatePrompt(persona, context, isRoast);
    var base := BasePrompt(persona, isRoast);
    var last := "Responding to: " + context.currentPost;
    var middle := PromptMiddle(context);
    PromptParts(persona, context, isRoast);
    PrefixOfConcat(base, middle + last);
    StartsWithTransitive(prompt, base, persona);
    SuffixOfConcat(base + middle, last);
  }

  /** What stands between the base prompt and the post answered. */
  function PromptMiddle(context: ReplyContext): string
  {
    if Truthy(context.parentPost) then "\n\nParent Post: " + context.parentPost.value + "\n" else "\n\n"
  }

  lemma PromptParts(persona: string, context: ReplyContext, isRoast: bool)
    ensures var base, middle, last := BasePrompt(persona, isRoast), PromptMiddle(context), "Responding to: " + context.currentPost;
            CreatePrompt(persona, context, isRoast) == base + (middle + last) &&
            CreatePrompt(persona, context, isRoast) == (base + middle) + last
  {
    var base, middle, last := BasePrompt(persona, isRoast), PromptMiddle(context), "Responding to: " + context.currentPost;
    if Truthy(context.parentPost) {
      assert "\n\nParent Post: " + context.parentPost.value + "\nResponding to: " + context.currentPost ==
             middle + last;
    } else {
      assert "\n\nResponding to: " + context.currentPost == middle + last;
    }
  }

  /** The roast instruction is the only difference roast mode makes: the same
      prompt, with the line inserted right after the persona. */
  lemma RoastModeInsertsLine(persona: string, context: ReplyContext)
    ensures var plain := CreatePrompt(persona, context, false);
            CreatePrompt(persona, context, true) == persona + RoastLine + plain[|persona|..]
  {
    var plain := CreatePrompt(persona, context, false);
    var tail := if Truthy(context.parentPost) then
                  "\n\nParent Post: " + context.parentPost.value + "\nResponding to: " + context.currentPost
                else "\n\nResponding to: " + context.currentPost;
    assert plain == persona + tail;
    assert plain[|persona|..] == tail;
  }

  /** A parent post changes the prompt: with a truthy parent it is longer by
      the parent line. */
  lemma ParentLineLength(persona: string, current: string, parent: string, isRoast: bool)
    requires parent != ""
    ensures |CreatePrompt(persona, ReplyContext(current, Some(parent)), isRoast)| ==
            |CreatePrompt(persona, ReplyContext(current, None), isRoast)| + |"\n\nParent Post: " + parent| - 1
  {
  }

  /** What `_make_api_call` answers from attempt `i` on: the first response,
      the first exception that is not a timeout, or TimeoutError once the
      third attempt has timed out. */
  function ApiCallFrom(outcomes: seq<AttemptOutcome>, i: nat): Result<string>
    requires |outcomes| >= MaxRetries && i < MaxRetries
    decreases MaxRetries - i
  {
    match outcomes[i]
    case Response(content) => Ok(content)
    case Failure(error) => Err(error)
    case Timeout => if i + 1 == MaxRetries then Err(TimeoutMessage) else ApiCallFrom(outcomes, i + 1)
  }

  function ApiCall(outcomes: seq<AttemptOutcome>): Result<string>
    requires |outcomes| >= MaxRetries
  {
    ApiCallFrom(outcomes, 0)
  }

  /** `outcomes[k]` is reached: every attempt before it timed out. */
  ghost predicate ReachedAfterTimeouts(outcomes: seq<AttemptOutcome>, k: nat)
  {
    k < MaxRetries <= |outcomes| && forall j :: 0 <= j < k ==> outcomes[j].Timeout?
  }

  lemma {:induction false} ApiCallFromSpec(outcomes: seq<AttemptOutcome>, i: nat)
    requires |outcomes| >= MaxRetries && i < MaxRetries
    ensures var r := ApiCallFrom(outcomes, i);
            r.Ok? ==> exists k :: i <= k < MaxRetries && outcomes[k] == Response(r.value) &&
                                   forall j :: i <= j < k ==> outcomes[j].Timeout?
    ensures var r := ApiCallFrom(outcomes, i);
            r.Err? ==> (r.error == TimeoutMessage && forall j :: i <= j < MaxRetries ==> outcomes[j].Timeout?) ||
                       exists k :: i <= k < MaxRetries && outcomes[k] == Failure(r.error) &&
                                   forall j :: i <= j < k ==> outcomes[j].Timeout?
    ensures forall k :: i <= k < MaxRetries && (forall j :: i <= j < k ==> outcomes[j].Timeout?) ==>
              (outcomes[k].Response? ==> ApiCallFrom(outcomes, i) == Ok(outcomes[k].content)) &&
              (outcomes[k].Failure? ==> ApiCallFrom(outcomes, i) == Err(outcomes[k].error))
    decreases MaxRetries - i
  {
    if outcomes[i].Timeout? && i + 1 < MaxRetries {
      ApiCallFromSpec(outcomes, i + 1);
    }
  }

  /** The call answers the response of the first attempt that is not a
      timeout, re-raises its exception when that attempt failed otherwise, and
      raises TimeoutError only when all three attempts timed out. */
  lemma ApiCallSpec(outcomes: seq<AttemptOutcome>)
    requires |outcomes| >= MaxRetries
    ensures ApiCall(outcomes).Ok? <==> exists k: nat :: ReachedAfterTimeouts(outcomes, k) && outcomes[k].Response?
    ensures forall k: nat :: ReachedAfterTimeouts(outcomes, k) && outcomes[k].Response? ==>
              ApiCall(outcomes) == Ok(outcomes[k].content)
    ensures forall k: nat :: ReachedAfterTimeouts(outcomes, k) && outcomes[k].Failure? ==>
              ApiCall(outcomes) == Err(outcomes[k].error)
    ensures (forall j :: 0 <= j < MaxRetries ==> outcomes[j].Timeout?) ==> ApiCall(outcomes) == Err(TimeoutMessage)
  {
    ApiCallFromSpec(outcomes, 0);
    if ApiCall(outcomes).Ok? {
      var k :| 0 <= k < MaxRetries && outcomes[k] == Response(ApiCall(outcomes).value) &&
               forall j :: 0 <= j < k ==> outcomes[j].Timeout?;
      assert ReachedAfterTimeouts(outcomes, k);
    }
    if forall j :: 0 <= j < MaxRetries ==> outcomes[j].Timeout? {
      assert outcomes[0].Timeout? && outcomes[1].Timeout? && outcomes[2].Timeout?;
    }
  }

  /** `_make_api_call` over the attempts' outcomes: it answers `ApiCall`, and
      also reports how many attempts it made and how many one-second sleeps it
      took between them. */
  method MakeApiCall(outcomes: seq<AttemptOutcome>) returns (r: Result<string>, attempts: nat, sleeps: nat)
    requires |outcomes| >= MaxRetries
    ensures 1 <= attempts <= MaxRetries
    ensures sleeps == attempts - 1
    ensures forall k :: 0 <= k < attempts - 1 ==> outcomes[k].Timeout?
    ensures outcomes[attempts - 1].Response? ==> r == Ok(outcomes[attempts - 1].content)
    ensures outcomes[attempts - 1].Failure? ==> r == Err(outcomes[attempts - 1].error)
    ensures outcomes[attempts - 1].Timeout? ==> attempts == MaxRetries && r == Err(TimeoutMessage)
    ensures r == ApiCall(outcomes)
  {
    var currentRetry: nat := 0;
    sleeps := 0;
    while currentRetry < MaxRetries
      invariant currentRetry <= MaxRetries - 1
      invariant sleeps == currentRetry
      invariant forall k :: 0 <= k < currentRetry ==> outcomes[k].Timeout?
      invariant ApiCallFrom(outcomes, currentRetry) == ApiCall(outcomes)
      decreases MaxRetries - currentRetry
    {
      match outcomes[currentRetry]
      case Response(content) =>
        return Ok(content), currentRetry + 1, sleeps;
      case Failure(error) =>
        return Err(error), currentRetry + 1, sleeps;
      case Timeout =>
        currentRetry := currentRetry + 1;
        if currentRetry == MaxRetries {
          return Err(TimeoutMessage), currentRetry, sleeps;
        }
        sleeps := sleeps + 1;
    }
    assert false;
  }

  /** `generate_response`: the prompt as system message, and the text of the
      answer `_make_api_call` gives, stripped; its exception is re-raised. */
  method GenerateResponse(persona: string, context: ReplyContext, isRoast: bool, outcomes: seq<AttemptOutcome>)
    returns (prompt: string, r: Result<string>)
    requires |outcomes| >= MaxRetries
    ensures prompt == CreatePrompt(persona, context, isRoast)
    ensures ApiCall(outcomes).Ok? ==> r == Ok(Strip(ApiCall(outcomes).value))
    ensures ApiCall(outcomes).Err? ==> r == ApiCall(outcomes)
  {
    prompt := CreatePrompt(persona, context, isRoast);
    var call, attempts, sleeps := MakeApiCall(outcomes);
    if call.Err? {
      return prompt, Err(call.error);
    }
    r := Ok(Strip(call.value));
  }

  /** A stored analysis, with its fields already rendered as text. */
  datatype TrendAnalysis = TrendAnalysis(topics: string, opinion: string, futurePostIdeas: string)

  function TrendLine(t: TrendAnalysis): string
  {
    "Topic: " + t.topics + "\nOpinion: " + t.opinion + "\nIdeas: " + t.futurePostIdeas
  }

  function TrendLines(trends: seq<TrendAnalysis>): (r: seq<string>)
    ensures |r| == |trends|
    ensures forall k :: 0 <= k < |trends| ==> r[k] == TrendLine(trends[k])
  {
    if trends == [] then [] else [TrendLine(trends[0])] + TrendLines(trends[1..])
  }

  /** The trend digest of `generate_post`: one block per trend, for the first
      five trends only, joined by newlines. */
  function TrendsPrompt(trends: seq<TrendAnalysis>): string
  {
    Join(TrendLines(Take(trends, 5)), "\n")
  }

  /** Trends after the fifth never reach the prompt. */
  lemma TrendsPromptIgnoresRest(first: seq<TrendAnalysis>, rest: seq<TrendAnalysis>)
    requires |first| >= 5
    ensures TrendsPrompt(first + rest) == TrendsPrompt(first)
  {
    assert Take(first + rest, 5) == Take(first, 5);
  }
}
