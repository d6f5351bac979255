/** services/trend_analyzer.py: which feed posts get analysed, how the analyses
    are paired back with the feed, the `last_analyzed_timestamp` it keeps, and
    the two read-only queries over the memory service. The per-post OpenAI
    analysis is the input `analyze`; the feed is what the atproto client's
    `get_feed` returned or the error it raised. */
module TrendAnalysis {
  import opened Common
  import opened Atproto
  import opened BlueskyClient
  import opened Ranking
  import opened Memory

  /** The `author` value of a post: a bare handle, or the profile dict that the
      atproto client's `get_feed` puts there. Python's `==` between a dict and
      the bot's handle string is always False. */
  datatype Author = Handle(name: string) | Profile(profile: ProfileView)

  /** One element of the list `analyze_feed` returns. */
  datatype AnalyzedPost = AnalyzedPost(post: FeedItem, analysis: AnalysisInput)

  /** `_should_analyze_post`: a post is skipped when a (truthy) last timestamp
      exists and the post's is not later in string order, or when its author is
      the bot. */
  function ShouldAnalyze(last: Option<string>, timestamp: string, author: Author, handle: string): bool
  {
    if Truthy(last) && StrLessEq(timestamp, last.value) then false
    else author != Handle(handle)
  }

  /** A post the bot wrote itself is never analysed. */
  lemma OwnPostsSkipped(last: Option<string>, timestamp: string, handle: string)
    ensures !ShouldAnalyze(last, timestamp, Handle(handle), handle)
  {
  }

  /** With no last timestamp, or one the post is later than, every other
      author's post is analysed. */
  lemma OthersLaterPostsAnalysed(last: Option<string>, timestamp: string, author: Author, handle: string)
    requires !Truthy(last) || !StrLessEq(timestamp, last.value)
    requires author != Handle(handle)
    ensures ShouldAnalyze(last, timestamp, author, handle)
  {
  }

  /** Once the last timestamp is the (non-empty) maximum of a batch, no post of
      that batch passes the check again. */
  lemma BatchNotReanalysed(timestamps: seq<string>, author: Author, handle: string)
    requires |timestamps| > 0 && StrMax(timestamps) != ""
    ensures forall k :: 0 <= k < |timestamps| ==>
              !ShouldAnalyze(Some(StrMax(timestamps)), timestamps[k], author, handle)
  {
    assert forall k :: 0 <= k < |timestamps| ==> timestamps[k] in timestamps;
  }

  /** The feed items of the atproto client carry a profile as author, so the
      author test never rejects them: only the timestamp decides. */
  lemma FeedAuthorsNeverMatch(last: Option<string>, item: FeedItem, handle: string)
    ensures ShouldAnalyze(last, item.timestamp, Profile(item.author), handle) ==
            !(Truthy(last) && StrLessEq(item.timestamp, last.value))
  {
  }

  function Eligible(last: Option<string>, handle: string, item: FeedItem): bool
  {
    ShouldAnalyze(last, item.timestamp, Profile(item.author), handle)
  }

  /** The feed items for which an analysis task is created, in feed order. */
  function Selected(feed: seq<FeedItem>, last: Option<string>, handle: string): seq<FeedItem>
  {
    Filter(feed, (item: FeedItem) => Eligible(last, handle, item))
  }

  /** The results `asyncio.gather` returns, one per task, in task order. */
  function AnalysesOf(posts: seq<FeedItem>, analyze: FeedItem -> Option<AnalysisInput>): (r: seq<Option<AnalysisInput>>)
    ensures |r| == |posts|
  {
    seq(|posts|, k requires 0 <= k < |posts| => analyze(posts[k]))
  }

  /** `zip(feed_items, analyses)` keeping the truthy analyses: the k-th feed
      item is paired with the k-th analysis, whichever post that analysis was
      made for. */
  function Paired(feed: seq<FeedItem>, analyses: seq<Option<AnalysisInput>>): (r: seq<AnalyzedPost>)
    ensures |r| <= Min(|feed|, |analyses|)
  {
    ZipUpTo(feed, analyses, Min(|feed|, |analyses|))
  }

  /** The zip over the first `n` positions. */
  function ZipUpTo(feed: seq<FeedItem>, analyses: seq<Option<AnalysisInput>>, n: nat): (r: seq<AnalyzedPost>)
    requires n <= |feed| && n <= |analyses|
    ensures |r| <= n
  {
    if n == 0 then [] else ZipUpTo(feed, analyses, n - 1) + PairAt(feed[n - 1], analyses[n - 1])
  }

  /** One position of the zip: kept when the analysis is truthy. */
  function PairAt(item: FeedItem, analysis: Option<AnalysisInput>): seq<AnalyzedPost>
  {
    if analysis.Some? then [AnalyzedPost(item, analysis.value)] else []
  }

  /** `p` is the feed item and the successful analysis found at one and the
      same position of the two lists. */
  ghost predicate SamePosition(feed: seq<FeedItem>, analyses: seq<Option<AnalysisInput>>, p: AnalyzedPost)
  {
    exists i :: 0 <= i < |feed| && i < |analyses| && analyses[i].Some? &&
                p == AnalyzedPost(feed[i], analyses[i].value)
  }

  lemma {:induction false} ZipPositional(feed: seq<FeedItem>, analyses: seq<Option<AnalysisInput>>, n: nat)
    requires n <= |feed| && n <= |analyses|
    ensures forall k :: 0 <= k < |ZipUpTo(feed, analyses, n)| ==>
              SamePosition(feed, analyses, ZipUpTo(feed, analyses, n)[k])
  {
    if n > 0 {
      ZipPositional(feed, analyses, n - 1);
      var rest := ZipUpTo(feed, analyses, n - 1);
      var r := ZipUpTo(feed, analyses, n);
      forall k | 0 <= k < |r| ensures SamePosition(feed, analyses, r[k]) {
        if k < |rest| {
          assert r[k] == rest[k];
        } else {
          assert r[k] == AnalyzedPost(feed[n - 1], analyses[n - 1].value);
        }
      }
    }
  }

  /** Every reported pair is positional. */
  lemma PairedPositional(feed: seq<FeedItem>, analyses: seq<Option<AnalysisInput>>)
    ensures forall k :: 0 <= k < |Paired(feed, analyses)| ==> SamePosition(feed, analyses, Paired(feed, analyses)[k])
  {
    ZipPositional(feed, analyses, Min(|feed|, |analyses|));
  }

  lemma {:induction false} ZipAligned(feed: seq<FeedItem>, analyze: FeedItem -> Option<AnalysisInput>, n: nat)
    requires n <= |feed|
    requires forall k :: 0 <= k < |feed| ==> analyze(feed[k]).Some?
    ensures ZipUpTo(feed, AnalysesOf(feed, analyze), n) ==
            seq(n, k requires 0 <= k < n => AnalyzedPost(feed[k], analyze(feed[k]).value))
  {
    if n > 0 {
      ZipAligned(feed, analyze, n - 1);
    }
  }

  /** When every analysis succeeded and no feed item was skipped, each post is
      reported with its own analysis, in feed order. */
  lemma PairedAligned(feed: seq<FeedItem>, analyze: FeedItem -> Option<AnalysisInput>)
    requires forall k :: 0 <= k < |feed| ==> analyze(feed[k]).Some?
    ensures Paired(feed, AnalysesOf(feed, analyze)) ==
            seq(|feed|, k requires 0 <= k < |feed| => AnalyzedPost(feed[k], analyze(feed[k]).value))
  {
    ZipAligned(feed, analyze, |feed|);
  }

  /** The pairing is positional: when the first feed item is skipped and the
      second analysed, the second's analysis is reported against the first. */
  lemma MisalignedPairing(feed: seq<FeedItem>, last: Option<string>, handle: string,
                          analyze: FeedItem -> Option<AnalysisInput>)
    requires |feed| == 2 && !Eligible(last, handle, feed[0]) && Eligible(last, handle, feed[1])
    requires analyze(feed[1]).Some?
    ensures Paired(feed, AnalysesOf(Selected(feed, last, handle), analyze)) ==
            [AnalyzedPost(feed[0], analyze(feed[1]).value)]
  {
    var sel := (item: FeedItem) => Eligible(last, handle, item);
    assert feed == [feed[0]] + [feed[1]];
    FilterAppend([feed[0]], [feed[1]], sel);
    assert Filter([feed[1]], sel) == [feed[1]];
    assert Selected(feed, last, handle) == [feed[1]];
    var analyses := AnalysesOf([feed[1]], analyze);
    assert analyses == [analyze(feed[1])];
    assert feed[..0] == [];
  }

  function Timestamps(posts: seq<AnalyzedPost>): (r: seq<string>)
    ensures |r| == |posts|
    ensures forall k :: 0 <= k < |posts| ==> r[k] == posts[k].post.timestamp
  {
    seq(|posts|, k requires 0 <= k < |posts| => posts[k].post.timestamp)
  }

  /** The topics of every trend, in order, repeats included. */
  function AllTopics(trends: seq<Memory.Trend>): seq<string>
  {
    if trends == [] then [] else AllTopics(trends[..|trends| - 1]) + trends[|trends| - 1].topics
  }

  /** What `get_trending_topics` returns for the given recent trends. */
  function TopTopics(trends: seq<Memory.Trend>): seq<string>
  {
    Items(MostCommon(AllTopics(trends), 10))
  }

  /** At most ten distinct topics taken from the trends, by non-increasing
      number of occurrences; no topic left out occurs more often than one
      listed. Ties keep the tally's first-seen order, as `Ranking.MostCommonTies` states. */
  lemma TopTopicsSpec(trends: seq<Memory.Trend>)
    ensures |TopTopics(trends)| == Min(10, |Ranking.FirstSeen(AllTopics(trends))|)
    ensures forall i, j :: 0 <= i < j < |TopTopics(trends)| ==> TopTopics(trends)[i] != TopTopics(trends)[j]
    ensures forall k :: 0 <= k < |TopTopics(trends)| ==> TopTopics(trends)[k] in AllTopics(trends)
    ensures forall i, j :: 0 <= i < j < |TopTopics(trends)| ==>
              multiset(AllTopics(trends))[TopTopics(trends)[i]] >= multiset(AllTopics(trends))[TopTopics(trends)[j]]
    ensures forall k, y :: 0 <= k < |TopTopics(trends)| && y in AllTopics(trends) && y !in TopTopics(trends) ==>
              multiset(AllTopics(trends))[TopTopics(trends)[k]] >= multiset(AllTopics(trends))[y]
  {
    var all := AllTopics(trends);
    var m := MostCommon(all, 10);
    MostCommonSorted(all, 10);
    MostCommonEntries(all, 10);
    forall i, j | 0 <= i < j < |m|
      ensures multiset(all)[m[i].item] >= multiset(all)[m[j].item]
    {
      assert TallyCount(m[i]) >= TallyCount(m[j]);
    }
    forall k, y | 0 <= k < |m| && y in all && y !in Items(m)
      ensures multiset(all)[m[k].item] >= multiset(all)[y]
    {
      MostCommonTop(all, 10, k, y);
    }
  }

  /** The opinions of the given entries, in order. */
  function Opinions(similar: seq<Memory.Trend>): (r: seq<string>)
    ensures |r| == |similar|
    ensures forall k :: 0 <= k < |similar| ==> r[k] == similar[k].opinion
  {
    seq(|similar|, k requires 0 <= k < |similar| => similar[k].opinion)
  }

  /** `o` is the opinion of a listed key whose analysis has a matching topic. */
  ghost predicate MatchingOpinion(keys: seq<string>, analyses: map<string, AnalysisData>, topic: string, o: string)
  {
    exists key :: key in keys && key in analyses && Matches(analyses[key].topics, topic) && o == analyses[key].opinion
  }

  /** `get_bot_opinions` answers at most ten opinions, each the opinion of a
      stored analysis whose topics match the query. */
  lemma BotOpinionsSpec(keys: seq<string>, analyses: map<string, AnalysisData>, topic: string)
    ensures |Opinions(Take(SimilarOf(keys, analyses, topic), 10))| <= 10
    ensures forall k :: 0 <= k < |Opinions(Take(SimilarOf(keys, analyses, topic), 10))| ==>
              MatchingOpinion(keys, analyses, topic, Opinions(Take(SimilarOf(keys, analyses, topic), 10))[k])
  {
    var similar := SimilarOf(keys, analyses, topic);
    var r := Opinions(Take(similar, 10));
    SimilarOfSources(keys, analyses, topic);
    forall k | 0 <= k < |r|
      ensures MatchingOpinion(keys, analyses, topic, r[k])
    {
      assert Take(similar, 10)[k] == similar[k];
      assert FromMatchingAnalysis(similar[k], keys, analyses, topic);
      var key :| key in keys && key in analyses && Matches(analyses[key].topics, topic) &&
                 similar[k] == Trend(analyses[key].topics, analyses[key].opinion);
      assert r[k] == analyses[key].opinion;
    }
    assert r == Opinions(Take(SimilarOf(keys, analyses, topic), 10));
  }

  class TrendAnalyzer {
    const botHandle: string
    const memory: MemoryStore
    var lastAnalyzedTimestamp: Option<string>

    constructor (botHandle: string, memory: MemoryStore)
      ensures this.botHandle == botHandle && this.memory == memory && lastAnalyzedTimestamp == None
    {
      this.botHandle := botHandle;
      this.memory := memory;
      lastAnalyzedTimestamp := None;
    }

    /** `analyze_feed`: analyse the eligible posts, pair the analyses with the
        feed by position, and move the last timestamp to the latest paired
        post. A failed feed fetch answers [] and changes nothing. */
    method AnalyzeFeed(feed: Result<seq<FeedItem>>, analyze: FeedItem -> Option<AnalysisInput>)
      returns (analyzed: seq<AnalyzedPost>)
      modifies this
      ensures feed.Err? ==> analyzed == []
      ensures feed.Ok? ==>
                analyzed == Paired(feed.value, AnalysesOf(Selected(feed.value, old(lastAnalyzedTimestamp), botHandle), analyze))
      ensures analyzed == [] ==> lastAnalyzedTimestamp == old(lastAnalyzedTimestamp)
      ensures analyzed != [] ==> lastAnalyzedTimestamp == Some(StrMax(Timestamps(analyzed)))
    {
      if feed.Err? || feed.value == [] {
        return [];
      }
      var analyses := AnalyzeEligible(feed.value, lastAnalyzedTimestamp, botHandle, analyze);
      analyzed := PairByPosition(feed.value, analyses);
      if analyzed != [] {
        lastAnalyzedTimestamp := Some(StrMax(Timestamps(analyzed)));
      }
    }

    /** `get_trending_topics`: count the topics of the twenty most recent
        trends and list the ten most frequent. */
    method GetTrendingTopics(available: bool) returns (topics: seq<string>)
      ensures topics ==
                TopTopics(if available then TrendsOf(Keys(memory.index)[..RevRangeCount(|memory.index|, 20)], memory.analyses) else [])
    {
      var recent := memory.GetRecentTrends(20, available);
      var counts := CountTopics(recent);
      topics := Items(Take(SortDesc(counts, TallyCount), 10));
    }

    /** `get_bot_opinions`: the opinions of the similar content, in order. */
    method GetBotOpinions(topic: string, available: bool) returns (opinions: seq<string>)
      ensures opinions == Opinions(if available then Take(SimilarOf(Keys(memory.index), memory.analyses, topic), 10) else [])
    {
      var similar := memory.FindSimilarContent(topic, available);
      opinions := Opinions(similar);
    }
  }

  /** The task loop of `analyze_feed`: one analysis per eligible post, in
      feed order. */
  method AnalyzeEligible(items: seq<FeedItem>, last: Option<string>, handle: string,
                         analyze: FeedItem -> Option<AnalysisInput>)
    returns (analyses: seq<Option<AnalysisInput>>)
    ensures analyses == AnalysesOf(Selected(items, last, handle), analyze)
  {
    ghost var chosen := [];
    analyses := [];
    var i := 0;
    while i < |items|
      invariant 0 <= i <= |items|
      invariant chosen == Selected(items[..i], last, handle)
      invariant analyses == AnalysesOf(chosen, analyze)
    {
      assert items[..i + 1] == items[..i] + [items[i]];
      SelectedAppend(items[..i], items[i], last, handle);
      if Eligible(last, handle, items[i]) {
        AnalysesOfAppend(chosen, items[i], analyze);
        chosen := chosen + [items[i]];
        analyses := analyses + [analyze(items[i])];
      }
      i := i + 1;
    }
    assert items[..|items|] == items;
  }

  lemma SelectedAppend(items: seq<FeedItem>, x: FeedItem, last: Option<string>, handle: string)
    ensures Selected(items + [x], last, handle) ==
            Selected(items, last, handle) + (if Eligible(last, handle, x) then [x] else [])
  {
    var sel := (item: FeedItem) => Eligible(last, handle, item);
    FilterAppend(items, [x], sel);
    assert [x][1..] == [];
  }

  lemma AnalysesOfAppend(posts: seq<FeedItem>, x: FeedItem, analyze: FeedItem -> Option<AnalysisInput>)
    ensures AnalysesOf(posts + [x], analyze) == AnalysesOf(posts, analyze) + [analyze(x)]
  {
  }

  /** The zip loop of `analyze_feed`. */
  method PairByPosition(items: seq<FeedItem>, analyses: seq<Option<AnalysisInput>>)
    returns (analyzed: seq<AnalyzedPost>)
    ensures analyzed == Paired(items, analyses)
  {
    analyzed := [];
    var n := Min(|items|, |analyses|);
    var i := 0;
    while i < n
      invariant 0 <= i <= n
      invariant analyzed == ZipUpTo(items, analyses, i)
    {
      if analyses[i].Some? {
        analyzed := analyzed + [AnalyzedPost(items[i], analyses[i].value)];
      }
      i := i + 1;
    }
  }

  /** The nested counting loops of `get_trending_topics`. */
  method CountTopics(trends: seq<Memory.Trend>) returns (counts: seq<Tally<string>>)
    ensures counts == Counts(AllTopics(trends))
  {
    counts := [];
    var i := 0;
    while i < |trends|
      invariant 0 <= i <= |trends|
      invariant counts == Counts(AllTopics(trends[..i]))
    {
      counts := CountMore(counts, AllTopics(trends[..i]), trends[i].topics);
      assert trends[..i + 1][..i] == trends[..i];
      i := i + 1;
    }
    assert trends[..|trends|] == trends;
  }

  /** The inner loop: the topics of one more trend added to the tally. */
  method CountMore(counts: seq<Tally<string>>, done: seq<string>, ts: seq<string>)
    returns (more: seq<Tally<string>>)
    requires counts == Counts(done)
    ensures more == Counts(done + ts)
  {
    more := counts;
    assert done + ts[..0] == done;
    var j := 0;
    while j < |ts|
      invariant 0 <= j <= |ts|
      invariant more == Counts(done + ts[..j])
    {
      var xs := done + ts[..j];
      assert (xs + [ts[j]])[..|xs|] == xs;
      assert done + ts[..j + 1] == xs + [ts[j]];
      more := Bump(more, ts[j]);
      j := j + 1;
    }
    assert ts[..|ts|] == ts;
  }
}
