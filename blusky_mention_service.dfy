/** The mention handler of services/blusky_mention_service.py: answers recent,
    unanswered mentions with a roast, remembers answered uris in an in-memory
    set and keeps a history of "mention || response" documents. The Chroma
    collection is a sequence of documents; the clock, the parsed mention
    times, the generated roast and the post outcome are inputs. */
module BluskyMentions {
  import opened Common
  import opened BluskyApiClient

  /** Mentions older than this many seconds are ignored. */
  const MaxAgeSeconds: int := 3600

  const Separator: string := " || "

  /** A mention as `get_mentions` of blusky_api/client.py gives it. */
  type Mention = Item

  /** A stored document with its id and metadata. */
  datatype StoredMention = StoredMention(id: string, document: string, author: string, timestamp: string,
                                         uri: string, responseType: string)

  /** A mention that got a response, as `handle_mentions` lists it. */
  datatype Answered = Answered(mention: Mention, response: string)

  /** The arguments of one `post_skeet` call: the text and the uri replied to. */
  datatype PostCall = PostCall(text: string, replyTo: string)

  /** What `datetime.fromisoformat` makes of a mention's timestamp after 'Z'
      is replaced by "+00:00": a rejected string, a naive time, or a time with
      a UTC offset, each as epoch seconds. */
  datatype ParsedTime = Unparsable | Naive(seconds: int) | Aware(seconds: int)

  /** What handling one mention meets: its parsed time, the roast the agent
      returns or raises, the post outcome, and the second-resolution stamp of
      the store. */
  datatype MentionOutcome = MentionOutcome(postedAt: ParsedTime, generated: Result<string>, posted: Result<string>,
                                           stamp: string)

  const NaiveAwareError: string := "TypeError: can't subtract offset-naive and offset-aware datetimes"

  /** `_should_process_mention`: not for a uri already answered; not when the
      mention is more than an hour old. `datetime.now()` is naive, so a
      timestamp with an offset (every 'Z' timestamp among them) raises
      TypeError, and an unparsable one raises ValueError. */
  function ShouldProcess(processed: set<string>, m: Mention, postedAt: ParsedTime, now: int): (r: Result<bool>)
    ensures m.uri in processed ==> r == Ok(false)
    ensures m.uri !in processed && postedAt.Unparsable? ==> r.Err?
    ensures m.uri !in processed && postedAt.Aware? ==> r == Err(NaiveAwareError)
    ensures m.uri !in processed && postedAt.Naive? ==> r == Ok(now - postedAt.seconds <= MaxAgeSeconds)
  {
    if m.uri in processed then Ok(false)
    else
      match postedAt
      case Unparsable => Err("ValueError: Invalid isoformat string: " + m.timestamp)
      case Aware(_) => Err(NaiveAwareError)
      case Naive(t) => Ok(!(now - t > MaxAgeSeconds))
  }

  /** A mention exactly one hour old is still answered; one a second older is not. */
  lemma AgeBoundary(m: Mention, t: int)
    ensures ShouldProcess({}, m, Naive(t), t + MaxAgeSeconds) == Ok(true)
    ensures ShouldProcess({}, m, Naive(t), t + MaxAgeSeconds + 1) == Ok(false)
  {
  }

  /** The document `_store_mention` writes. */
  function Document(text: string, response: string): string
  {
    text + Separator + response
  }

  /** The unpacking `get_mention_history` does: exactly two pieces, or ValueError. */
  function ParseDocument(doc: string): (r: Option<(string, string)>)
    ensures r.Some? <==> |SplitOn(doc, Separator)| == 2
    ensures r.Some? ==> r.value == (SplitOn(doc, Separator)[0], SplitOn(doc, Separator)[1])
  {
    var pieces := SplitOn(doc, Separator);
    if |pieces| == 2 then Some((pieces[0], pieces[1])) else None
  }

  /** A stored document reads back as the mention text and the response when
      the text has no '|' and the response does not contain the separator. */
  lemma DocumentRoundTrip(text: string, response: string)
    requires '|' !in text
    requires !Occurs(response, Separator)
    ensures ParseDocument(Document(text, response)) == Some((text, response))
  {
    var doc := text + Separator + response;
    forall i: nat | i < |text| ensures !OccursAt(doc, Separator, i) {
      if i + 1 < |text| {
        assert doc[i + 1] == text[i + 1];
      } else {
        assert doc[i + 1] == Separator[0];
      }
      assert doc[i + 1] != Separator[1];
      assert i + 4 <= |doc| ==> doc[i..i + 4][1] == doc[i + 1];
    }
    SplitOnJoined(text, response, Separator);
  }

  /** A mention text ending in " ||" is read back wrongly: the first separator
      found is the one inside the text. */
  lemma DocumentMisread()
    ensures ParseDocument(Document("x ||", "b")) == Some(("x", "|| b"))
  {
    var doc := Document("x ||", "b");
    assert doc == "x || || b";
    var tail := "|| b";
    assert tail[..4] != Separator by { assert tail[0] != Separator[0]; }
    assert tail[1..] == "| b";
    assert SplitOn(tail, Separator) == [['|'] + "| b"];
    assert ['|'] + "| b" == tail;
    var mid := doc[1..];
    assert mid[..4] == Separator;
    assert mid[4..] == tail;
    assert SplitOn(mid, Separator) == ["", tail];
    assert doc[..4] != Separator by { assert doc[0] != Separator[0]; }
    assert SplitOn(doc, Separator) == [['x'] + ""] + [tail];
    assert ['x'] + "" == "x";
  }

  /** A mention text holding the separator makes the unpacking fail. */
  lemma DocumentWithSeparatorFails()
    ensures ParseDocument(Document(" || ", "b")) == None
  {
    var doc := Document(" || ", "b");
    assert doc == " ||  || b";
    assert doc[..4] == Separator;
    var rest := doc[4..];
    assert rest == " || b";
    assert rest[..4] == Separator;
    assert rest[4..] == "b";
    assert SplitOn("b", Separator) == ["b"];
    assert SplitOn(rest, Separator) == ["", "b"];
    assert SplitOn(doc, Separator) == ["", "", "b"];
  }

  /** A history entry of `get_mention_history`. */
  datatype HistoryEntry = HistoryEntry(mention: string, response: string, metadata: StoredMention)

  /** The handler's state after some of a batch: the answered uris, the
      collection, the answers so far, and whether an exception ended it. */
  datatype HandleState = HandleState(processed: set<string>, stored: seq<StoredMention>, answered: seq<Answered>,
                                     failed: bool)

  /** The collection after `_store_mention`: a document is added under a fresh
      id; an id already taken (two mentions in the same second) adds nothing. */
  function Store(stored: seq<StoredMention>, m: Mention, response: string, stamp: string): (r: seq<StoredMention>)
    ensures (exists k :: 0 <= k < |stored| && stored[k].id == "mention_" + stamp) ==> r == stored
    ensures (forall k :: 0 <= k < |stored| ==> stored[k].id != "mention_" + stamp) ==>
              r == stored + [StoredMention("mention_" + stamp, Document(m.text, response), m.author, m.timestamp,
                                           m.uri, "roast")]
  {
    var id := "mention_" + stamp;
    if exists k :: 0 <= k < |stored| && stored[k].id == id then stored
    else stored + [StoredMention(id, Document(m.text, response), m.author, m.timestamp, m.uri, "roast")]
  }

  /** One turn of the loop of `handle_mentions`. The uri is added to the set as
      soon as the post succeeds, even when the roast is empty and therefore not
      listed nor stored. */
  function Step(st: HandleState, m: Mention, o: MentionOutcome, now: int): HandleState
  {
    if st.failed then st
    else
      match ShouldProcess(st.processed, m, o.postedAt, now)
      case Err(_) => st.(failed := true)
      case Ok(false) => st
      case Ok(true) =>
        if o.generated.Err? || o.posted.Err? then st
        else
          var response := o.generated.value;
          var processed := st.processed + {m.uri};
          if response == "" then st.(processed := processed)
          else HandleState(processed, Store(st.stored, m, response, o.stamp),
                           st.answered + [Answered(m, response)], false)
  }

  /** The loop over a batch, from its first mention. */
  function Run(st: HandleState, ms: seq<Mention>, os: seq<MentionOutcome>, now: int): HandleState
    requires |os| == |ms|
    decreases |ms|
  {
    if ms == [] then st else Run(Step(st, ms[0], os[0], now), ms[1..], os[1..], now)
  }

  /** The uris of a batch. */
  function UrisOf(ms: seq<Mention>): set<string>
  {
    set m | m in ms :: m.uri
  }

  /** What a run promises, relative to the set `s` it started from: every
      answer is to a mention outside `s` that is now in the set, no uri is
      answered twice, each answer is to one of the batch's mentions, and the
      set gains only uris of the batch. */
  ghost predicate RunFacts(s: set<string>, ms: seq<Mention>, st: HandleState)
  {
    && s <= st.processed
    && st.processed <= s + UrisOf(ms)
    && (forall k :: 0 <= k < |st.answered| ==>
          st.answered[k].mention.uri !in s && st.answered[k].mention.uri in st.processed &&
          st.answered[k].mention in ms && st.answered[k].response != "")
    && (forall j, k :: 0 <= j < k < |st.answered| ==> st.answered[j].mention.uri != st.answered[k].mention.uri)
  }

  lemma StepFacts(s: set<string>, ms: seq<Mention>, st: HandleState, m: Mention, o: MentionOutcome, now: int)
    requires RunFacts(s, ms, st)
    requires m in ms
    ensures RunFacts(s, ms, Step(st, m, o, now))
  {
    var next := Step(st, m, o, now);
    if next.answered != st.answered {
      assert m.uri !in st.processed;
      forall j, k | 0 <= j < k < |next.answered|
        ensures next.answered[j].mention.uri != next.answered[k].mention.uri
      {
        assert next.answered[j] == st.answered[j];
        if k < |st.answered| {
          assert next.answered[k] == st.answered[k];
        }
      }
      forall k | 0 <= k < |next.answered|
        ensures next.answered[k].mention.uri !in s && next.answered[k].mention.uri in next.processed
        ensures next.answered[k].mention in ms && next.answered[k].response != ""
      {
        if k < |st.answered| {
          assert next.answered[k] == st.answered[k];
        }
      }
    }
  }

  lemma {:induction false} RunKeepsFacts(s: set<string>, all: seq<Mention>, st: HandleState,
                                         ms: seq<Mention>, os: seq<MentionOutcome>, now: int)
    requires |os| == |ms|
    requires RunFacts(s, all, st)
    requires forall k :: 0 <= k < |ms| ==> ms[k] in all
    ensures RunFacts(s, all, Run(st, ms, os, now))
    decreases |ms|
  {
    if ms != [] {
      assert ms[0] in all;
      StepFacts(s, all, st, ms[0], os[0], now);
      RunKeepsFacts(s, all, Step(st, ms[0], os[0], now), ms[1..], os[1..], now);
    }
  }

  /** Once an exception ends a run, nothing changes any more. */
  lemma {:induction false} RunAfterFailure(st: HandleState, ms: seq<Mention>, os: seq<MentionOutcome>, now: int)
    requires |os| == |ms|
    ensures st.failed ==> Run(st, ms, os, now) == st
    decreases |ms|
  {
    if ms != [] {
      RunAfterFailure(st, ms[1..], os[1..], now);
    }
  }

  /** A run only adds: the answers so far stay first, the set only grows,
      and a failed state stays failed. */
  lemma {:induction false} RunExtends(st: HandleState, ms: seq<Mention>, os: seq<MentionOutcome>, now: int)
    requires |os| == |ms|
    ensures var r := Run(st, ms, os, now);
            |st.answered| <= |r.answered| && r.answered[..|st.answered|] == st.answered &&
            st.processed <= r.processed && (st.failed ==> r.failed)
    decreases |ms|
  {
    if ms != [] {
      var next := Step(st, ms[0], os[0], now);
      RunExtends(next, ms[1..], os[1..], now);
      var r := Run(st, ms, os, now);
      assert r.answered[..|st.answered|] == r.answered[..|next.answered|][..|st.answered|];
    }
  }

  /** What a mention needs to be answered when its turn comes and its uri is
      still unanswered: a naive time at most an hour old, a non-empty roast
      and a successful post. */
  predicate Answerable(o: MentionOutcome, now: int)
  {
    o.postedAt.Naive? && now - o.postedAt.seconds <= MaxAgeSeconds &&
    o.generated.Ok? && o.generated.value != "" && o.posted.Ok?
  }

  /** No earlier mention of the batch has the uri of `ms[k]`. */
  ghost predicate FirstWithUri(ms: seq<Mention>, k: nat)
    requires k < |ms|
  {
    forall j :: 0 <= j < k ==> ms[j].uri != ms[k].uri
  }

  /** A run that ends without an exception answers every answerable mention
      whose uri was not answered before. */
  lemma {:induction false} RunComplete(st: HandleState, ms: seq<Mention>, os: seq<MentionOutcome>, now: int, k: nat)
    requires |os| == |ms| && k < |ms|
    requires ms[k].uri !in st.processed && FirstWithUri(ms, k) && Answerable(os[k], now)
    requires !Run(st, ms, os, now).failed
    ensures Answered(ms[k], os[k].generated.value) in Run(st, ms, os, now).answered
    decreases |ms|
  {
    var next := Step(st, ms[0], os[0], now);
    RunAfterFailure(st, ms, os, now);
    RunExtends(next, ms[1..], os[1..], now);
    var r := Run(next, ms[1..], os[1..], now);
    if k == 0 {
      var a := Answered(ms[0], os[0].generated.value);
      assert next.answered == st.answered + [a];
      assert r.answered[..|next.answered|][|st.answered|] == a;
    } else {
      assert ms[0].uri != ms[k].uri;
      assert ms[1..][k - 1] == ms[k] && os[1..][k - 1] == os[k];
      assert FirstWithUri(ms[1..], k - 1) by {
        forall j | 0 <= j < k - 1 ensures ms[1..][j].uri != ms[1..][k - 1].uri {
          assert ms[1..][j] == ms[j + 1];
        }
      }
      RunComplete(next, ms[1..], os[1..], now, k - 1);
    }
  }

  /** `idx` gives, for each answer, the position of its mention in the
      batch, and the positions increase. */
  ghost predicate Positions(answered: seq<Answered>, ms: seq<Mention>, idx: seq<nat>)
  {
    && |idx| == |answered|
    && (forall k :: 0 <= k < |idx| ==> idx[k] < |ms| && answered[k].mention == ms[idx[k]])
    && (forall j, k :: 0 <= j < k < |idx| ==> idx[j] < idx[k])
  }

  /** Positions in a batch without its first mention, as positions in the
      whole batch. */
  lemma ShiftPositions(answered: seq<Answered>, ms: seq<Mention>, rest: seq<nat>) returns (idx: seq<nat>)
    requires ms != [] && Positions(answered, ms[1..], rest)
    ensures Positions(answered, ms, idx) && forall k :: 0 <= k < |idx| ==> idx[k] > 0
  {
    idx := seq(|rest|, k requires 0 <= k < |rest| => rest[k] + 1);
    assert forall k :: 0 <= k < |rest| ==> ms[1..][rest[k]] == ms[idx[k]];
  }

  /** An answer to the first mention, put before answers to later ones. */
  lemma ConsPositions(a: Answered, answered: seq<Answered>, ms: seq<Mention>, idx: seq<nat>)
    requires ms != [] && a.mention == ms[0] && Positions(answered, ms, idx)
    requires forall k :: 0 <= k < |idx| ==> idx[k] > 0
    ensures Positions([a] + answered, ms, [0] + idx)
  {
    var full := [0] + idx;
    assert forall k :: 1 <= k < |full| ==> full[k] == idx[k - 1] && ([a] + answered)[k] == answered[k - 1];
  }

  /** The answers a run adds come in the order of their mentions in the batch. */
  lemma {:induction false} RunInOrder(st: HandleState, ms: seq<Mention>, os: seq<MentionOutcome>, now: int)
    returns (idx: seq<nat>)
    requires |os| == |ms|
    ensures var r := Run(st, ms, os, now);
            |st.answered| <= |r.answered| && Positions(r.answered[|st.answered|..], ms, idx)
    decreases |ms|
  {
    RunExtends(st, ms, os, now);
    if ms == [] {
      idx := [];
    } else {
      var r := Run(st, ms, os, now);
      var next := Step(st, ms[0], os[0], now);
      RunExtends(next, ms[1..], os[1..], now);
      var rest := RunInOrder(next, ms[1..], os[1..], now);
      var tail := r.answered[|next.answered|..];
      var shifted := ShiftPositions(tail, ms, rest);
      if next.answered == st.answered {
        idx := shifted;
      } else {
        var a := Answered(ms[0], os[0].generated.value);
        assert next.answered == st.answered + [a];
        assert r.answered[|st.answered|] == r.answered[..|next.answered|][|st.answered|];
        assert r.answered[|st.answered|..] == [a] + tail;
        ConsPositions(a, tail, ms, shifted);
        idx := [0] + shifted;
      }
    }
  }

  /** When no roast can be generated, nothing is answered, stored or
      remembered. */
  lemma {:induction false} NoRoastNoAnswer(st: HandleState, ms: seq<Mention>, os: seq<MentionOutcome>, now: int)
    requires |os| == |ms|
    requires forall k :: 0 <= k < |os| ==> os[k].generated.Err?
    ensures var r := Run(st, ms, os, now);
            r.answered == st.answered && r.processed == st.processed && r.stored == st.stored
    decreases |ms|
  {
    if ms != [] {
      assert os[0].generated.Err?;
      assert forall k :: 0 <= k < |os[1..]| ==> os[1..][k] == os[k + 1];
      NoRoastNoAnswer(Step(st, ms[0], os[0], now), ms[1..], os[1..], now);
    }
  }

  /** The first unanswered mention of a batch with an offset timestamp ends
      the run with an exception, so `handle_mentions` answers nothing. */
  lemma AwareTimestampAbortsRun(s: set<string>, stored: seq<StoredMention>, ms: seq<Mention>,
                                os: seq<MentionOutcome>, now: int)
    requires |os| == |ms| && ms != []
    requires ms[0].uri !in s && os[0].postedAt.Aware?
    ensures Run(HandleState(s, stored, [], false), ms, os, now) == HandleState(s, stored, [], true)
  {
    RunAfterFailure(HandleState(s, stored, [], true), ms[1..], os[1..], now);
  }

  class MentionHandler {
    var processedMentions: set<string>
    var collection: seq<StoredMention>

    constructor ()
      ensures processedMentions == {} && collection == []
    {
      processedMentions := {};
      collection := [];
    }

    /** `handle_mentions`. `fetched` is what `get_mentions` answers and `outcomes`
        what each mention meets. The answers are returned in input order; an
        exception anywhere returns no answers, but what the set and the
        collection took before it stays. */
    method HandleMentions(fetched: Result<seq<Mention>>, outcomes: seq<MentionOutcome>, now: int)
      returns (answered: seq<Answered>)
      requires fetched.Ok? ==> |outcomes| == |fetched.value|
      modifies this
      ensures fetched.Err? ==> answered == [] && processedMentions == old(processedMentions) &&
                               collection == old(collection)
      ensures fetched.Ok? ==>
                var st := Run(HandleState(old(processedMentions), old(collection), [], false),
                              fetched.value, outcomes, now);
                processedMentions == st.processed && collection == st.stored &&
                answered == (if st.failed then [] else st.answered)
    {
      if fetched.Err? {
        return [];
      }
      var ms := fetched.value;
      ghost var result := Run(HandleState(processedMentions, collection, [], false), ms, outcomes, now);
      var processed: seq<Answered> := [];
      var i := 0;
      while i < |ms|
        invariant 0 <= i <= |ms|
        invariant Run(HandleState(processedMentions, collection, processed, false), ms[i..], outcomes[i..], now) == result
      {
        assert ms[i..][1..] == ms[i + 1..] && outcomes[i..][1..] == outcomes[i + 1..];
        var o := outcomes[i];
        var should := ShouldProcess(processedMentions, ms[i], o.postedAt, now);
        if should.Err? {
          RunAfterFailure(HandleState(processedMentions, collection, processed, true), ms[i + 1..], outcomes[i + 1..], now);
          return [];
        }
        if should.value {
          var response, _ := ProcessMention(ms[i], o);
          if response.Some? && response.value != "" {
            processed := processed + [Answered(ms[i], response.value)];
            collection := Store(collection, ms[i], response.value, o.stamp);
          }
        }
        i := i + 1;
      }
      answered := processed;
    }

    /** `_process_mention`: the roast and, when the post succeeds, the uri is
        marked answered. `post_skeet` is called whenever a roast was
        generated, with the roast as text and the mention's own uri as the
        post replied to. */
    method ProcessMention(m: Mention, o: MentionOutcome) returns (response: Option<string>, call: Option<PostCall>)
      modifies this
      ensures o.generated.Ok? ==> call == Some(PostCall(o.generated.value, m.uri))
      ensures o.generated.Err? ==> call == None
      ensures o.generated.Ok? && o.posted.Ok? ==>
                response == Some(o.generated.value) && processedMentions == old(processedMentions) + {m.uri}
      ensures o.generated.Err? || o.posted.Err? ==> response == None && processedMentions == old(processedMentions)
      ensures collection == old(collection)
    {
      if o.generated.Err? {
        return None, None;
      }
      call := Some(PostCall(o.generated.value, m.uri));
      if o.posted.Err? {
        return None, call;
      }
      processedMentions := processedMentions + {m.uri};
      response := Some(o.generated.value);
    }

    /** `get_mention_history` over what the collection query answers: one
        entry per document, or nothing at all when a document does not split
        into exactly two pieces or the query fails. */
    method GetMentionHistory(results: Result<seq<StoredMention>>) returns (history: seq<HistoryEntry>)
      ensures results.Err? ==> history == []
      ensures results.Ok? && (exists k :: 0 <= k < |results.value| && ParseDocument(results.value[k].document).None?) ==>
                history == []
      ensures results.Ok? && (forall k :: 0 <= k < |results.value| ==> ParseDocument(results.value[k].document).Some?) ==>
                |history| == |results.value| &&
                forall k :: 0 <= k < |history| ==>
                  (history[k].mention, history[k].response) == ParseDocument(results.value[k].document).value &&
                  history[k].metadata == results.value[k]
    {
      if results.Err? {
        return [];
      }
      var docs := results.value;
      history := [];
      var i := 0;
      while i < |docs|
        invariant 0 <= i <= |docs|
        invariant forall k :: 0 <= k < i ==> ParseDocument(docs[k].document).Some?
        invariant |history| == i
        invariant forall k :: 0 <= k < i ==>
                    (history[k].mention, history[k].response) == ParseDocument(docs[k].document).value &&
                    history[k].metadata == docs[k]
      {
        var parsed := ParseDocument(docs[i].document);
        if parsed.None? {
          return [];
        }
        history := history + [HistoryEntry(parsed.value.0, parsed.value.1, docs[i])];
        i := i + 1;
      }
    }
  }

  /** `handle_mentions` over a batch: every answer is to a mention of the
      batch that was not answered before, each uri at most once, in batch
      order, and each answered uri is remembered; the set gains only uris of
      the batch; and a run without an exception answers every answerable
      mention with a fresh uri. */
  lemma HandleMentionsFacts(s: set<string>, stored: seq<StoredMention>, ms: seq<Mention>,
                            os: seq<MentionOutcome>, now: int)
    requires |os| == |ms|
    ensures RunFacts(s, ms, Run(HandleState(s, stored, [], false), ms, os, now))
    ensures exists idx :: Positions(Run(HandleState(s, stored, [], false), ms, os, now).answered, ms, idx)
    ensures var r := Run(HandleState(s, stored, [], false), ms, os, now);
            !r.failed ==>
              forall k :: 0 <= k < |ms| && ms[k].uri !in s && FirstWithUri(ms, k) && Answerable(os[k], now) ==>
                Answered(ms[k], os[k].generated.value) in r.answered
  {
    var st := HandleState(s, stored, [], false);
    var r := Run(st, ms, os, now);
    RunKeepsFacts(s, ms, st, ms, os, now);
    var idx := RunInOrder(st, ms, os, now);
    assert r.answered[|st.answered|..] == r.answered;
    if !r.failed {
      forall k | 0 <= k < |ms| && ms[k].uri !in s && FirstWithUri(ms, k) && Answerable(os[k], now)
        ensures Answered(ms[k], os[k].generated.value) in r.answered
      {
        RunComplete(st, ms, os, now, k);
      }
    }
  }
}
