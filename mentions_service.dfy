/** The mention service of mentions_service.py: one check cycle over the live
    `get_mentions` answer, deduplicated against the Redis set of processed
    mention uris, and the SERVICE_STATE record the HTTP endpoints read and
    flip. The Redis set is a `set<string>` field; every collaborator answer
    (the mention list, the parent lookup, the generated reply, the post) and
    the clock are inputs. */
module MentionsService {
  import opened Common
  import opened Atproto
  import opened BlueskyClient

  /** What `generate_response` is given. */
  datatype ResponseContext = ResponseContext(currentPost: string, parentPost: Option<string>, author: ProfileView)

  /** The `post_skeet` call a processed mention leads to. */
  datatype ReplyCall = ReplyCall(text: string, replyTo: Option<string>)

  /** The collaborators' answers while one mention is processed: what `get_post`
      returns for the parent (read only when there is one), what the model
      generates, and what posting answers. */
  datatype ProcessOutcome = ProcessOutcome(parent: Option<Post>, generated: Result<string>, posted: Result<string>)

  /** One `process_mention` call: the parent uri it looked up, the context it
      built, the reply it posted (None when generation failed) and its result. */
  datatype MentionAttempt = MentionAttempt(
    mention: MentionData,
    lookedUp: Option<string>,
    context: ResponseContext,
    reply: Option<ReplyCall>,
    succeeded: bool)

  /** `_get_parent_post`: the text of the post `get_post` found, None otherwise;
      `get_post` already turns every failure into None, so this never fails. */
  function GetParentPost(fetched: Option<Post>): (r: Option<string>)
    ensures r.Some? <==> fetched.Some?
    ensures r.Some? ==> r.value == fetched.value.text
  {
    if fetched.Some? then Some(fetched.value.text) else None
  }

  /** `process_mention`: the parent is fetched only for a reply, the reply is
      posted to the mention's own `reply_to` (its parent, not the mention), and
      any failure makes the result False. */
  function ProcessMention(m: MentionData, outcome: ProcessOutcome): (a: MentionAttempt)
    ensures a.mention == m
    ensures a.lookedUp == if Truthy(m.replyTo) then m.replyTo else None
    ensures a.context.currentPost == m.text && a.context.author == m.author
    ensures Truthy(m.replyTo) ==> a.context.parentPost == GetParentPost(outcome.parent)
    ensures !Truthy(m.replyTo) ==> a.context.parentPost == None
    ensures a.reply.Some? <==> outcome.generated.Ok?
    ensures a.reply.Some? ==> a.reply.value == ReplyCall(outcome.generated.value, m.replyTo)
    ensures a.succeeded <==> outcome.generated.Ok? && outcome.posted.Ok?
  {
    var parent := if Truthy(m.replyTo) then GetParentPost(outcome.parent) else None;
    var context := ResponseContext(m.text, parent, m.author);
    var reply := if outcome.generated.Ok? then Some(ReplyCall(outcome.generated.value, m.replyTo)) else None;
    MentionAttempt(m, if Truthy(m.replyTo) then m.replyTo else None, context, reply,
                   outcome.generated.Ok? && outcome.posted.Ok?)
  }

  /** The result of the loop of `check_and_process_mentions` over some mentions:
      the processed set, the `processed_count` and the attempts, in order. */
  datatype Cycle = Cycle(processed: set<string>, count: nat, attempts: seq<MentionAttempt>)

  /** The loop, defined from its last step so that it unfolds along a prefix: a
      mention found in the set is skipped, one that succeeds is added and counted. */
  function RunCycle(ms: seq<MentionData>, outcomes: seq<ProcessOutcome>, s: set<string>): Cycle
    requires |outcomes| == |ms|
    decreases |ms|
  {
    if ms == [] then Cycle(s, 0, [])
    else
      var n := |ms| - 1;
      var before := RunCycle(ms[..n], outcomes[..n], s);
      if ms[n].uri in before.processed then before
      else
        var a := ProcessMention(ms[n], outcomes[n]);
        if a.succeeded then Cycle(before.processed + {ms[n].uri}, before.count + 1, before.attempts + [a])
        else Cycle(before.processed, before.count, before.attempts + [a])
  }

  /** The uris of the attempts that succeeded. */
  function SucceededUris(attempts: seq<MentionAttempt>): set<string>
  {
    set k | 0 <= k < |attempts| && attempts[k].succeeded :: attempts[k].mention.uri
  }

  /** No uri belongs to two attempts of which the first succeeded. */
  ghost predicate AnsweredOnce(attempts: seq<MentionAttempt>)
  {
    forall j, k :: 0 <= j < k < |attempts| && attempts[j].succeeded ==>
      attempts[j].mention.uri != attempts[k].mention.uri
  }

  /** No attempt is made on a uri of the set `s`. */
  ghost predicate AllOutside(attempts: seq<MentionAttempt>, s: set<string>)
  {
    forall k :: 0 <= k < |attempts| ==> attempts[k].mention.uri !in s
  }

  /** What one cycle promises: the set only grows, by exactly the uris whose
      processing succeeded; no mention already in the set is attempted; no uri
      is answered twice; and the count is the number of uris added. */
  ghost predicate CycleFacts(s: set<string>, c: Cycle)
  {
    && s <= c.processed
    && c.processed == s + SucceededUris(c.attempts)
    && AllOutside(c.attempts, s)
    && AnsweredOnce(c.attempts)
    && c.count == |c.processed - s|
  }

  lemma {:induction false} RunCycleFacts(ms: seq<MentionData>, outcomes: seq<ProcessOutcome>, s: set<string>)
    requires |outcomes| == |ms|
    ensures CycleFacts(s, RunCycle(ms, outcomes, s))
    ensures forall k :: 0 <= k < |RunCycle(ms, outcomes, s).attempts| ==>
              RunCycle(ms, outcomes, s).attempts[k].mention in ms
    decreases |ms|
  {
    if ms != [] {
      var n := |ms| - 1;
      var before := RunCycle(ms[..n], outcomes[..n], s);
      RunCycleFacts(ms[..n], outcomes[..n], s);
      if ms[n].uri !in before.processed {
        var a := ProcessMention(ms[n], outcomes[n]);
        CycleFactsAttempt(s, before, a);
        var c := RunCycle(ms, outcomes, s);
        forall k | 0 <= k < |c.attempts| ensures c.attempts[k].mention in ms {
          if k < |before.attempts| {
            assert c.attempts[k] == before.attempts[k];
            assert before.attempts[k].mention in ms[..n];
          }
        }
      } else {
        forall k | 0 <= k < |before.attempts| ensures before.attempts[k].mention in ms {
          assert before.attempts[k].mention in ms[..n];
        }
      }
    }
  }

  lemma SucceededUrisAppend(attempts: seq<MentionAttempt>, a: MentionAttempt)
    ensures SucceededUris(attempts + [a]) ==
            SucceededUris(attempts) + (if a.succeeded then {a.mention.uri} else {})
  {
    var c := attempts + [a];
    forall u | u in SucceededUris(c)
      ensures u in SucceededUris(attempts) + (if a.succeeded then {a.mention.uri} else {})
    {
      var k :| 0 <= k < |c| && c[k].succeeded && c[k].mention.uri == u;
      if k < |attempts| {
        assert c[k] == attempts[k];
      }
    }
    forall u | u in SucceededUris(attempts) ensures u in SucceededUris(c) {
      var k :| 0 <= k < |attempts| && attempts[k].succeeded && attempts[k].mention.uri == u;
      assert c[k] == attempts[k];
    }
    if a.succeeded {
      assert c[|attempts|] == a;
    }
  }

  lemma AnsweredOnceAppend(attempts: seq<MentionAttempt>, a: MentionAttempt)
    requires AnsweredOnce(attempts)
    requires a.mention.uri !in SucceededUris(attempts)
    ensures AnsweredOnce(attempts + [a])
  {
    var c := attempts + [a];
    forall j, k | 0 <= j < k < |c| && c[j].succeeded
      ensures c[j].mention.uri != c[k].mention.uri
    {
      assert c[j] == attempts[j];
      if k == |attempts| {
        assert c[j].mention.uri in SucceededUris(attempts);
      } else {
        assert c[k] == attempts[k];
      }
    }
  }

  lemma AddedCount(s: set<string>, processed: set<string>, u: string)
    requires s <= processed && u !in processed
    ensures |processed + {u} - s| == |processed - s| + 1
  {
    assert processed + {u} - s == (processed - s) + {u};
  }

  /** One attempt on a uri outside the set extends the facts. */
  lemma CycleFactsAttempt(s: set<string>, before: Cycle, a: MentionAttempt)
    requires CycleFacts(s, before)
    requires a.mention.uri !in before.processed
    ensures a.succeeded ==>
              CycleFacts(s, Cycle(before.processed + {a.mention.uri}, before.count + 1, before.attempts + [a]))
    ensures !a.succeeded ==> CycleFacts(s, Cycle(before.processed, before.count, before.attempts + [a]))
  {
    SucceededUrisAppend(before.attempts, a);
    AnsweredOnceAppend(before.attempts, a);
    AllOutsideAppend(before.attempts, a, s);
    if a.succeeded {
      SucceededFacts(s, before, a);
    } else {
      assert SucceededUris(before.attempts + [a]) == SucceededUris(before.attempts);
    }
  }

  lemma SucceededFacts(s: set<string>, before: Cycle, a: MentionAttempt)
    requires CycleFacts(s, before)
    requires a.mention.uri !in before.processed && a.succeeded
    requires SucceededUris(before.attempts + [a]) == SucceededUris(before.attempts) + {a.mention.uri}
    requires AnsweredOnce(before.attempts + [a]) && AllOutside(before.attempts + [a], s)
    ensures CycleFacts(s, Cycle(before.processed + {a.mention.uri}, before.count + 1, before.attempts + [a]))
  {
    AddedCount(s, before.processed, a.mention.uri);
  }

  lemma AllOutsideAppend(attempts: seq<MentionAttempt>, a: MentionAttempt, s: set<string>)
    requires AllOutside(attempts, s) && a.mention.uri !in s
    ensures AllOutside(attempts + [a], s)
  {
    var c := attempts + [a];
    forall k | 0 <= k < |c| ensures c[k].mention.uri !in s {
      if k < |attempts| {
        assert c[k] == attempts[k];
      }
    }
  }

  lemma RunCycleStep(ms: seq<MentionData>, outcomes: seq<ProcessOutcome>, s: set<string>, i: nat)
    requires |outcomes| == |ms| && i < |ms|
    ensures var before := RunCycle(ms[..i], outcomes[..i], s);
            RunCycle(ms[..i + 1], outcomes[..i + 1], s) ==
              if ms[i].uri in before.processed then before
              else
                var a := ProcessMention(ms[i], outcomes[i]);
                if a.succeeded then Cycle(before.processed + {ms[i].uri}, before.count + 1, before.attempts + [a])
                else Cycle(before.processed, before.count, before.attempts + [a])
  {
    assert ms[..i + 1][..i] == ms[..i];
    assert outcomes[..i + 1][..i] == outcomes[..i];
  }

  /** The three Redis calls the loop makes for one mention. */
  datatype RedisCall = SisMember | SAdd | Expire

  /** The Redis call that raises: the given call for the mention at the given
      position, if the loop makes it there; every other call succeeds. The
      first call that raises ends the loop, so one fault describes any run. */
  datatype RedisFault = RedisFault(position: nat, call: RedisCall)

  /** The `for` loop of `check_and_process_mentions` with its Redis calls: the
      processed set, the counter and the attempts when the loop ends, and
      whether a Redis call raised. `sismember` raises before the mention is
      looked at; `sadd` raises after the reply is posted, before its uri is
      recorded; `expire` raises after the uri is recorded but before it is
      counted. A fault on a call
      the loop does not make at that position (`sadd` for a mention that is
      skipped or fails) changes nothing. */
  function Batch(ms: seq<MentionData>, outcomes: seq<ProcessOutcome>, s: set<string>,
                 fault: Option<RedisFault>): (Cycle, bool)
    requires |outcomes| == |ms|
  {
    if fault.None? || fault.value.position >= |ms| then (RunCycle(ms, outcomes, s), false)
    else
      var i := fault.value.position;
      var before := RunCycle(ms[..i], outcomes[..i], s);
      if fault.value.call == SisMember then (before, true)
      else if ms[i].uri in before.processed then (RunCycle(ms, outcomes, s), false)
      else
        var a := ProcessMention(ms[i], outcomes[i]);
        if !a.succeeded then (RunCycle(ms, outcomes, s), false)
        else if fault.value.call == SAdd then (Cycle(before.processed, before.count, before.attempts + [a]), true)
        else (Cycle(before.processed + {ms[i].uri}, before.count, before.attempts + [a]), true)
  }

  /** `sadd` raised after the reply to `ms[i]` was posted. */
  predicate LostRecord(ms: seq<MentionData>, outcomes: seq<ProcessOutcome>, s: set<string>, fault: Option<RedisFault>)
    requires |outcomes| == |ms|
  {
    fault.Some? && fault.value.call == SAdd && Batch(ms, outcomes, s, fault).1
  }

  /** `expire` raised after the uri of `ms[i]` was recorded, before the
      counter moved. */
  predicate UncountedRecord(ms: seq<MentionData>, outcomes: seq<ProcessOutcome>, s: set<string>,
                            fault: Option<RedisFault>)
    requires |outcomes| == |ms|
  {
    fault.Some? && fault.value.call == Expire && Batch(ms, outcomes, s, fault).1
  }

  /** What a batch promises. Without a raising call it is the whole cycle.
      With one, the set still only grew, by uris whose processing succeeded,
      and no uri of the set was attempted. All the cycle facts hold unless
      `sadd` or `expire` was the call that raised. After `sadd`, the last
      attempt posted a reply whose uri is missing from the set. After
      `expire`, that uri is in the set but the count is one short of the uris
      added. */
  lemma BatchFacts(ms: seq<MentionData>, outcomes: seq<ProcessOutcome>, s: set<string>, fault: Option<RedisFault>)
    requires |outcomes| == |ms|
    ensures var (c, failed) := Batch(ms, outcomes, s, fault);
            && (!failed ==> c == RunCycle(ms, outcomes, s))
            && (failed ==> fault.Some? && fault.value.position < |ms|)
            && s <= c.processed
            && c.processed <= s + SucceededUris(c.attempts)
            && AllOutside(c.attempts, s)
            && AnsweredOnce(c.attempts)
            && (!LostRecord(ms, outcomes, s, fault) && !UncountedRecord(ms, outcomes, s, fault) ==> CycleFacts(s, c))
            && (LostRecord(ms, outcomes, s, fault) ==>
                  c.attempts != [] && Last(c.attempts).succeeded &&
                  Last(c.attempts).mention == ms[fault.value.position] &&
                  Last(c.attempts).mention.uri !in c.processed &&
                  c.processed == s + SucceededUris(c.attempts[..|c.attempts| - 1]))
            && (UncountedRecord(ms, outcomes, s, fault) ==>
                  c.attempts != [] && Last(c.attempts).succeeded &&
                  Last(c.attempts).mention == ms[fault.value.position] &&
                  Last(c.attempts).mention.uri in c.processed &&
                  c.processed == s + SucceededUris(c.attempts) &&
                  c.count + 1 == |c.processed - s|)
  {
    RunCycleFacts(ms, outcomes, s);
    if fault.Some? && fault.value.position < |ms| {
      var i := fault.value.position;
      var before := RunCycle(ms[..i], outcomes[..i], s);
      RunCycleFacts(ms[..i], outcomes[..i], s);
      if fault.value.call != SisMember && ms[i].uri !in before.processed {
        var a := ProcessMention(ms[i], outcomes[i]);
        if a.succeeded {
          CycleFactsAttempt(s, before, a);
          SucceededUrisAppend(before.attempts, a);
          AnsweredOnceAppend(before.attempts, a);
          AllOutsideAppend(before.attempts, a, s);
          assert (before.attempts + [a])[..|before.attempts|] == before.attempts;
        }
      }
    }
  }

  /** A reply posted before `sadd` raised is posted again: the next cycle
      finds its uri outside the set and processes the same mention anew. */
  lemma LostRecordAnswersAgain(ms: seq<MentionData>, outcomes: seq<ProcessOutcome>, s: set<string>,
                               fault: Option<RedisFault>, again: ProcessOutcome)
    requires |outcomes| == |ms|
    requires LostRecord(ms, outcomes, s, fault)
    ensures var m := ms[fault.value.position];
            RunCycle([m], [again], Batch(ms, outcomes, s, fault).0.processed).attempts == [ProcessMention(m, again)]
  {
    BatchFacts(ms, outcomes, s, fault);
    var m := ms[fault.value.position];
    var p := Batch(ms, outcomes, s, fault).0.processed;
    assert [m][..0] == [] && [again][..0] == [];
    assert RunCycle([m][..0], [again][..0], p) == Cycle(p, 0, []);
  }

  /** The `for` loop of `check_and_process_mentions`, Redis calls included. */
  method ProcessBatch(ms: seq<MentionData>, outcomes: seq<ProcessOutcome>, s: set<string>,
                      fault: Option<RedisFault>)
    returns (c: Cycle, failed: bool)
    requires |outcomes| == |ms|
    ensures (c, failed) == Batch(ms, outcomes, s, fault)
  {
    var added, count, attempts := s, 0, [];
    failed := false;
    var i := 0;
    while i < |ms|
      invariant 0 <= i <= |ms|
      invariant RunCycle(ms[..i], outcomes[..i], s) == Cycle(added, count, attempts)
      invariant fault.Some? && fault.value.position < i ==> Batch(ms, outcomes, s, fault) == (RunCycle(ms, outcomes, s), false)
    {
      RunCycleStep(ms, outcomes, s, i);
      if fault == Some(RedisFault(i, SisMember)) {
        failed := true;
        break;
      }
      if ms[i].uri !in added {
        var a := ProcessMention(ms[i], outcomes[i]);
        attempts := attempts + [a];
        if a.succeeded {
          if fault == Some(RedisFault(i, SAdd)) {
            failed := true;
            break;
          }
          added := added + {ms[i].uri};
          if fault == Some(RedisFault(i, Expire)) {
            failed := true;
            break;
          }
          count := count + 1;
        }
      }
      i := i + 1;
    }
    assert ms[..|ms|] == ms && outcomes[..|ms|] == outcomes;
    c := Cycle(added, count, attempts);
  }

  /** The answer of the `/status` endpoint. */
  datatype ServiceStatus = ServiceStatus(
    isRunning: bool,
    lastCheck: Option<int>,
    lastError: Option<string>,
    mentionsProcessed: nat,
    nextCheck: Option<int>)

  /** Five minutes, the interval `/status` announces. */
  const NextCheckDelay: int := 5 * 60
  /** The seconds the loop actually sleeps between cycles. */
  const LoopSleep: int := 20

  /** The part of SERVICE_STATE and of Redis that a check cycle changes. */
  datatype CheckState = CheckState(processed: set<string>, mentionsProcessed: nat, lastCheck: Option<int>,
                                   lastError: Option<string>)

  /** The cycle went through every fetched mention without an exception. */
  predicate Completed(fetched: Result<seq<MentionData>>, outcomes: seq<ProcessOutcome>, s: set<string>,
                      fault: Option<RedisFault>)
    requires fetched.Ok? ==> |outcomes| == |fetched.value|
  {
    fetched.Ok? && fetched.value != [] && !Batch(fetched.value, outcomes, s, fault).1
  }

  /** `check_and_process_mentions` on that state: `fetched` is what
      `get_mentions` answers, `outcomes[i]` what processing the i-th mention
      meets and `fault` the Redis call that raises `redisError`, if any. A
      completed cycle adds to the counter exactly the number of uris it added
      to the set and stamps `last_check`; any other ending leaves both alone,
      and an exception is recorded in `last_error`, though the uris added
      before it stay in the set. */
  function CheckEffect(st: CheckState, fetched: Result<seq<MentionData>>, outcomes: seq<ProcessOutcome>,
                       fault: Option<RedisFault>, redisError: string, now: int): (r: CheckState)
    requires fetched.Ok? ==> |outcomes| == |fetched.value|
    ensures st.processed <= r.processed
    ensures fetched.Err? ==> r == st.(lastError := Some(fetched.error))
    ensures fetched.Ok? && fetched.value == [] ==> r == st
    ensures Completed(fetched, outcomes, st.processed, fault) ==>
              r.lastCheck == Some(now) && r.lastError == st.lastError &&
              r.mentionsProcessed == st.mentionsProcessed + |r.processed - st.processed|
    ensures !Completed(fetched, outcomes, st.processed, fault) ==>
              r.lastCheck == st.lastCheck && r.mentionsProcessed == st.mentionsProcessed
    ensures fetched.Ok? && fetched.value != [] && !Completed(fetched, outcomes, st.processed, fault) ==>
              r.lastError == Some(redisError)
  {
    if fetched.Err? then st.(lastError := Some(fetched.error))
    else if fetched.value == [] then st
    else
      var (c, failed) := Batch(fetched.value, outcomes, st.processed, fault);
      BatchFacts(fetched.value, outcomes, st.processed, fault);
      if failed then st.(processed := c.processed, lastError := Some(redisError))
      else CheckState(c.processed, st.mentionsProcessed + c.count, Some(now), st.lastError)
  }

  /** SERVICE_STATE and the Redis set of processed mention uris. A background
      task is named by the number of tasks created before it. */
  class MentionService {
    var isRunning: bool
    var lastCheck: Option<int>
    var lastError: Option<string>
    var mentionsProcessed: nat
    var backgroundTask: Option<nat>
    var tasksCreated: nat
    var cancelled: set<nat>
    var processed: set<string>

    /** The initial SERVICE_STATE, over whatever the Redis set already holds. */
    constructor (processed: set<string>)
      ensures !isRunning && lastCheck == None && lastError == None && mentionsProcessed == 0
      ensures backgroundTask == None && tasksCreated == 0 && cancelled == {}
      ensures this.processed == processed
    {
      isRunning := false;
      lastCheck := None;
      lastError := None;
      mentionsProcessed := 0;
      backgroundTask := None;
      tasksCreated := 0;
      cancelled := {};
      this.processed := processed;
    }

    /** The fields a check cycle changes. */
    function Snapshot(): CheckState
      reads this
    {
      CheckState(processed, mentionsProcessed, lastCheck, lastError)
    }

    /** `check_and_process_mentions`: the new state is `CheckEffect` of the
        old one; the attempts made are returned. */
    method CheckAndProcessMentions(fetched: Result<seq<MentionData>>, outcomes: seq<ProcessOutcome>,
                                   fault: Option<RedisFault>, redisError: string, now: int)
      returns (attempts: seq<MentionAttempt>)
      requires fetched.Ok? ==> |outcomes| == |fetched.value|
      modifies this
      ensures Snapshot() == CheckEffect(old(Snapshot()), fetched, outcomes, fault, redisError, now)
      ensures isRunning == old(isRunning) && backgroundTask == old(backgroundTask)
      ensures tasksCreated == old(tasksCreated) && cancelled == old(cancelled)
      ensures attempts == if fetched.Ok? && fetched.value != [] then Batch(fetched.value, outcomes, old(processed), fault).0.attempts
                          else []
    {
      attempts := [];
      if fetched.Err? {
        lastError := Some(fetched.error);
        return;
      }
      var ms := fetched.value;
      if ms == [] {
        return;
      }
      var c, failed := ProcessBatch(ms, outcomes, processed, fault);
      processed := c.processed;
      attempts := c.attempts;
      if failed {
        lastError := Some(redisError);
        return;
      }
      mentionsProcessed := mentionsProcessed + c.count;
      lastCheck := Some(now);
    }

    /** `/status`: the state, and a next check five minutes after the last one. */
    function GetStatus(): (st: ServiceStatus)
      reads this
      ensures st.isRunning == isRunning && st.lastCheck == lastCheck && st.lastError == lastError
      ensures st.mentionsProcessed == mentionsProcessed
      ensures st.nextCheck.Some? <==> lastCheck.Some?
      ensures st.nextCheck.Some? ==> st.nextCheck.value == lastCheck.value + NextCheckDelay
    {
      ServiceStatus(isRunning, lastCheck, lastError, mentionsProcessed,
                    if lastCheck.Some? then Some(lastCheck.value + NextCheckDelay) else None)
    }

    /** `/start`: a new background task unless the flag is already up. The flag
        itself is raised only once the task begins to run. */
    method StartService() returns (message: string)
      modifies this
      ensures old(isRunning) ==> message == "Service is already running" && backgroundTask == old(backgroundTask) &&
                                 tasksCreated == old(tasksCreated)
      ensures !old(isRunning) ==> message == "Service started" && backgroundTask == Some(old(tasksCreated)) &&
                                  tasksCreated == old(tasksCreated) + 1
      ensures isRunning == old(isRunning) && cancelled == old(cancelled) && processed == old(processed)
      ensures lastCheck == old(lastCheck) && lastError == old(lastError) && mentionsProcessed == old(mentionsProcessed)
    {
      if !isRunning {
        backgroundTask := Some(tasksCreated);
        tasksCreated := tasksCreated + 1;
        return "Service started";
      }
      message := "Service is already running";
    }

    /** `/stop`: lowers the flag and cancels the stored task, if running. */
    method StopService() returns (message: string)
      modifies this
      ensures old(isRunning) ==> message == "Service stopped" &&
                                 cancelled == old(cancelled) + (if old(backgroundTask).Some? then {old(backgroundTask).value} else {})
      ensures !old(isRunning) ==> message == "Service is not running" && cancelled == old(cancelled)
      ensures !isRunning && backgroundTask == old(backgroundTask) && tasksCreated == old(tasksCreated)
      ensures processed == old(processed) && lastCheck == old(lastCheck) && lastError == old(lastError)
      ensures mentionsProcessed == old(mentionsProcessed)
    {
      if isRunning {
        isRunning := false;
        if backgroundTask.Some? {
          cancelled := cancelled + {backgroundTask.value};
        }
        return "Service stopped";
      }
      message := "Service is not running";
    }

    /** The start of `continuous_mention_check`, when its task first runs. */
    method BeginContinuousCheck()
      modifies this
      ensures isRunning
      ensures backgroundTask == old(backgroundTask) && tasksCreated == old(tasksCreated) && cancelled == old(cancelled)
      ensures processed == old(processed) && lastCheck == old(lastCheck) && lastError == old(lastError)
      ensures mentionsProcessed == old(mentionsProcessed)
    {
      isRunning := true;
    }

    /** One turn of the `while` of `continuous_mention_check`: while the flag
        is up, one check cycle and then the sleep, which is returned. */
    method ContinuousCheckTurn(fetched: Result<seq<MentionData>>, outcomes: seq<ProcessOutcome>,
                               fault: Option<RedisFault>, redisError: string, now: int)
      returns (ran: bool, sleep: int)
      requires fetched.Ok? ==> |outcomes| == |fetched.value|
      modifies this
      ensures ran == old(isRunning)
      ensures ran ==> sleep == LoopSleep && Snapshot() == CheckEffect(old(Snapshot()), fetched, outcomes, fault, redisError, now)
      ensures !ran ==> sleep == 0 && Snapshot() == old(Snapshot())
      ensures isRunning == old(isRunning) && backgroundTask == old(backgroundTask)
      ensures tasksCreated == old(tasksCreated) && cancelled == old(cancelled)
    {
      if !isRunning {
        return false, 0;
      }
      var attempts := CheckAndProcessMentions(fetched, outcomes, fault, redisError, now);
      ran, sleep := true, LoopSleep;
    }
  }

  /** Two `/start` requests before the first task has run both create a task:
      the flag that guards `/start` is raised by the task, not by the request. */
  method DoubleStart() returns (s: MentionService)
    ensures s.tasksCreated == 2 && !s.isRunning && s.backgroundTask == Some(1)
  {
    s := new MentionService({});
    var first := s.StartService();
    var second := s.StartService();
    assert first == second == "Service started";
  }
}
