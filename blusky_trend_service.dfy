/** The trend researcher of services/blusky_trend_service.py: count the words,
    hashtags and capitalised phrases of the feed, keep the top five hashtags,
    the top five phrases and the long, non-trivial words among the top twenty,
    and rank them all by count. The three regular expressions are the input
    `tokenize`; the ChromaDB history is not part of this model. */
module BluskyTrends {
  import opened Common
  import opened Ranking
  import opened Atproto
  import opened BluskyApiClient

  datatype TrendKind = Hashtag | Topic | Word

  /** One `{'topic', 'count', 'type'}` dictionary. */
  datatype TrendEntry = TrendEntry(topic: string, count: nat, kind: TrendKind)

  /** What the three `re.findall` calls find in one text: the words and the
      hashtag names of the lower-cased text, and the capitalised phrases. */
  datatype Tokens = Tokens(words: seq<string>, hashtags: seq<string>, topics: seq<string>)

  const ExcludedWords: set<string> := {"https", "about", "would", "their", "there", "this", "that"}

  function EntryCount(e: TrendEntry): int
  {
    e.count
  }

  // ---------------------------------------------------------------------------
  // _analyze_content

  /** The words, hashtags and phrases of all texts, text after text. */
  function Gather(texts: seq<string>, tokenize: string -> Tokens): (t: Tokens)
  {
    if texts == [] then Tokens([], [], [])
    else
      var init := Gather(texts[..|texts| - 1], tokenize);
      var last := tokenize(texts[|texts| - 1]);
      Tokens(init.words + last.words, init.hashtags + last.hashtags, init.topics + last.topics)
  }

  function HashtagEntries(top: seq<Tally<string>>): (r: seq<TrendEntry>)
    ensures |r| == |top|
    ensures forall k :: 0 <= k < |r| ==> r[k] == TrendEntry("#" + top[k].item, top[k].count, Hashtag)
  {
    if top == [] then [] else [TrendEntry("#" + top[0].item, top[0].count, Hashtag)] + HashtagEntries(top[1..])
  }

  function TopicEntries(top: seq<Tally<string>>): (r: seq<TrendEntry>)
    ensures |r| == |top|
    ensures forall k :: 0 <= k < |r| ==> r[k] == TrendEntry(top[k].item, top[k].count, Topic)
  {
    if top == [] then [] else [TrendEntry(top[0].item, top[0].count, Topic)] + TopicEntries(top[1..])
  }

  /** A word is worth reporting when it is longer than four characters and not
      on the excluded list. */
  predicate Reportable(word: string)
  {
    |word| > 4 && word !in ExcludedWords
  }

  function WordEntries(top: seq<Tally<string>>): (r: seq<TrendEntry>)
    ensures |r| <= |top|
    ensures forall k :: 0 <= k < |r| ==>
              r[k].kind == Word && Reportable(r[k].topic) && Tally(r[k].topic, r[k].count) in top
  {
    if top == [] then []
    else (if Reportable(top[0].item) then [TrendEntry(top[0].item, top[0].count, Word)] else []) + WordEntries(top[1..])
  }

  /** The list before sorting: hashtags, then phrases, then words. */
  function Combined(t: Tokens): seq<TrendEntry>
  {
    HashtagEntries(MostCommon(t.hashtags, 5)) + TopicEntries(MostCommon(t.topics, 5)) +
    WordEntries(MostCommon(t.words, 20))
  }

  /** The ten entries with the largest counts; ties keep the combined order. */
  function RankTrends(t: Tokens): seq<TrendEntry>
  {
    Take(SortDesc(Combined(t), EntryCount), 10)
  }

  /** What `_analyze_content` returns for the texts. */
  function AnalyzeContentOf(texts: seq<string>, tokenize: string -> Tokens): seq<TrendEntry>
  {
    RankTrends(Gather(texts, tokenize))
  }

  predicate IsHashtag(e: TrendEntry) { e.kind == Hashtag }
  predicate IsTopic(e: TrendEntry) { e.kind == Topic }

  /** Sorting keeps how many elements pass a test. */
  lemma {:induction false} InsertDescFilterLength(x: TrendEntry, s: seq<TrendEntry>, p: TrendEntry -> bool)
    ensures |Filter(InsertDesc(x, s, EntryCount), p)| == |Filter([x], p)| + |Filter(s, p)|
  {
    if s != [] && EntryCount(x) < EntryCount(s[0]) {
      InsertDescFilterLength(x, s[1..], p);
      assert Filter(s, p) == Filter([s[0]], p) + Filter(s[1..], p) by {
        assert s == [s[0]] + s[1..];
        FilterAppend([s[0]], s[1..], p);
      }
      var rest := InsertDesc(x, s[1..], EntryCount);
      FilterAppend([s[0]], rest, p);
    } else if s != [] {
      FilterAppend([x], s, p);
    }
  }

  lemma {:induction false} SortDescFilterLength(s: seq<TrendEntry>, p: TrendEntry -> bool)
    ensures |Filter(SortDesc(s, EntryCount), p)| == |Filter(s, p)|
  {
    if s != [] {
      SortDescFilterLength(s[1..], p);
      InsertDescFilterLength(s[0], SortDesc(s[1..], EntryCount), p);
      assert s == [s[0]] + s[1..];
      FilterAppend([s[0]], s[1..], p);
    }
  }

  /** A prefix has no more passing elements than the whole. */
  lemma TakeFilterLength(s: seq<TrendEntry>, n: nat, p: TrendEntry -> bool)
    ensures |Filter(Take(s, n), p)| <= |Filter(s, p)|
  {
    var t := Take(s, n);
    assert s == t + s[|t|..];
    FilterAppend(t, s[|t|..], p);
  }

  lemma {:induction false} WordEntriesNoOthers(top: seq<Tally<string>>, p: TrendEntry -> bool)
    requires forall e: TrendEntry :: e.kind == Word ==> !p(e)
    ensures Filter(WordEntries(top), p) == []
  {
    if top != [] {
      WordEntriesNoOthers(top[1..], p);
      var head := if Reportable(top[0].item) then [TrendEntry(top[0].item, top[0].count, Word)] else [];
      FilterAppend(head, WordEntries(top[1..]), p);
    }
  }

  lemma {:induction false} KindOnlyFilter(es: seq<TrendEntry>, kind: TrendKind, p: TrendEntry -> bool)
    requires forall k :: 0 <= k < |es| ==> es[k].kind == kind
    requires forall e: TrendEntry :: e.kind == kind ==> !p(e)
    ensures Filter(es, p) == []
  {
    if es != [] {
      KindOnlyFilter(es[1..], kind, p);
      assert es == [es[0]] + es[1..];
      FilterAppend([es[0]], es[1..], p);
    }
  }

  /** The ranked list holds at most five hashtags and at most five phrases. */
  lemma RankTrendsKindBounds(t: Tokens)
    ensures |Filter(RankTrends(t), IsHashtag)| <= 5
    ensures |Filter(RankTrends(t), IsTopic)| <= 5
  {
    var h := HashtagEntries(MostCommon(t.hashtags, 5));
    var p := TopicEntries(MostCommon(t.topics, 5));
    var w := WordEntries(MostCommon(t.words, 20));
    MostCommonSorted(t.hashtags, 5);
    MostCommonSorted(t.topics, 5);
    var c := Combined(t);
    FilterAppend(h + p, w, IsHashtag);
    FilterAppend(h, p, IsHashtag);
    FilterAppend(h + p, w, IsTopic);
    FilterAppend(h, p, IsTopic);
    KindOnlyFilter(p, Topic, IsHashtag);
    KindOnlyFilter(h, Hashtag, IsTopic);
    WordEntriesNoOthers(MostCommon(t.words, 20), IsHashtag);
    WordEntriesNoOthers(MostCommon(t.words, 20), IsTopic);
    SortDescFilterLength(c, IsHashtag);
    SortDescFilterLength(c, IsTopic);
    TakeFilterLength(SortDesc(c, EntryCount), 10, IsHashtag);
    TakeFilterLength(SortDesc(c, EntryCount), 10, IsTopic);
  }

  /** What every combined entry satisfies, by kind. */
  ghost predicate WellFormedEntry(t: Tokens, e: TrendEntry)
  {
    (e.kind == Hashtag ==> StartsWith(e.topic, "#") && e.topic[1..] in t.hashtags &&
                           e.count == multiset(t.hashtags)[e.topic[1..]]) &&
    (e.kind == Topic ==> e.topic in t.topics && e.count == multiset(t.topics)[e.topic]) &&
    (e.kind == Word ==> Reportable(e.topic) && e.topic in Items(MostCommon(t.words, 20)) &&
                        e.count == multiset(t.words)[e.topic])
  }

  lemma CombinedWellFormed(t: Tokens)
    ensures forall e :: e in Combined(t) ==> WellFormedEntry(t, e)
  {
    var mh, mt, mw := MostCommon(t.hashtags, 5), MostCommon(t.topics, 5), MostCommon(t.words, 20);
    var h, p, w := HashtagEntries(mh), TopicEntries(mt), WordEntries(mw);
    MostCommonEntries(t.hashtags, 5);
    MostCommonEntries(t.topics, 5);
    MostCommonEntries(t.words, 20);
    forall e | e in Combined(t) ensures WellFormedEntry(t, e) {
      if e in h {
        var k :| 0 <= k < |h| && h[k] == e;
        assert e.topic[1..] == mh[k].item;
        PrefixOfConcat("#", mh[k].item);
      } else if e in p {
        var k :| 0 <= k < |p| && p[k] == e;
      } else {
        assert e in w;
        var k :| 0 <= k < |w| && w[k] == e;
        var j :| 0 <= j < |mw| && mw[j] == Tally(e.topic, e.count);
        assert Items(mw)[j] == e.topic;
      }
    }
  }

  /** `_analyze_content` keeps the top ten: the ten entries of the combined
      list with the largest counts (all of them when there are fewer), and no
      entry left out has a larger count than one listed. */
  lemma RankTrendsTop(t: Tokens)
    ensures |RankTrends(t)| == Min(10, |Combined(t)|)
    ensures multiset(RankTrends(t)) <= multiset(Combined(t))
    ensures forall k, e :: 0 <= k < |RankTrends(t)| && e in multiset(Combined(t)) - multiset(RankTrends(t)) ==>
              e.count <= RankTrends(t)[k].count
  {
    var c := Combined(t);
    var r := Take(SortDesc(c, EntryCount), 10);
    SortedPrefixTop(c, 10, EntryCount);
    forall k, e: TrendEntry | 0 <= k < |r| && e in multiset(c) - multiset(r) ensures e.count <= r[k].count {
      assert EntryCount(e) <= EntryCount(r[k]);
    }
  }

  /** `_analyze_content`: at most ten entries, by non-increasing count, each
      drawn from the combined list and well formed for its kind; at most five
      hashtags and five phrases. */
  lemma RankTrendsSpec(t: Tokens)
    ensures |RankTrends(t)| <= 10
    ensures NonIncreasing(RankTrends(t), EntryCount)
    ensures forall k :: 0 <= k < |RankTrends(t)| ==> RankTrends(t)[k] in Combined(t) && WellFormedEntry(t, RankTrends(t)[k])
    ensures |Filter(RankTrends(t), IsHashtag)| <= 5 && |Filter(RankTrends(t), IsTopic)| <= 5
  {
    var c := Combined(t);
    var sorted := SortDesc(c, EntryCount);
    var r := RankTrends(t);
    SortDescSorted(c, EntryCount);
    SortDescPermutation(c, EntryCount);
    CombinedWellFormed(t);
    forall k | 0 <= k < |r| ensures r[k] in c && WellFormedEntry(t, r[k]) {
      assert r[k] == sorted[k];
      assert sorted[k] in multiset(c);
    }
    RankTrendsKindBounds(t);
  }

  function HasCount(c: int): TrendEntry -> bool
  {
    (e: TrendEntry) => e.count == c
  }

  /** Equal counts keep the combined order (hashtags, then phrases, then
      words): the reported entries of one count are the first entries of that
      count in the combined list. */
  lemma RankTrendsTies(t: Tokens, c: int)
    ensures var f := Filter(RankTrends(t), HasCount(c));
            var all := Filter(Combined(t), HasCount(c));
            |f| <= |all| && f == all[..|f|]
  {
    var sorted := SortDesc(Combined(t), EntryCount);
    var r := RankTrends(t);
    assert sorted == r + sorted[|r|..];
    FilterAppend(r, sorted[|r|..], HasCount(c));
    SortDescStable(Combined(t), EntryCount, HasCount(c));
  }

  // ---------------------------------------------------------------------------
  // The imperative loops of _analyze_content

  /** The `extend` loop over the texts. */
  method GatherTokens(texts: seq<string>, tokenize: string -> Tokens) returns (t: Tokens)
    ensures t == Gather(texts, tokenize)
  {
    var words, hashtags, topics := [], [], [];
    var i := 0;
    while i < |texts|
      invariant 0 <= i <= |texts|
      invariant Tokens(words, hashtags, topics) == Gather(texts[..i], tokenize)
    {
      var found := tokenize(texts[i]);
      assert texts[..i + 1][..i] == texts[..i];
      words := words + found.words;
      hashtags := hashtags + found.hashtags;
      topics := topics + found.topics;
      i := i + 1;
    }
    assert texts[..|texts|] == texts;
    t := Tokens(words, hashtags, topics);
  }

  /** `_analyze_content`: the appends for hashtags, phrases and words, then
      the sort by count and the slice. */
  method AnalyzeContent(texts: seq<string>, tokenize: string -> Tokens) returns (trends: seq<TrendEntry>)
    ensures trends == AnalyzeContentOf(texts, tokenize)
  {
    var t := GatherTokens(texts, tokenize);
    var forTags := AppendHashtags(MostCommon(t.hashtags, 5));
    var forTopics := AppendTopics(MostCommon(t.topics, 5));
    var forWords := AppendWords(MostCommon(t.words, 20));
    var combined := forTags + forTopics + forWords;
    trends := Take(SortDesc(combined, EntryCount), 10);
  }

  /** The hashtag loop: one `#`-prefixed entry per top hashtag. */
  method AppendHashtags(tags: seq<Tally<string>>) returns (entries: seq<TrendEntry>)
    ensures entries == HashtagEntries(tags)
  {
    entries := [];
    var i := 0;
    while i < |tags|
      invariant 0 <= i <= |tags|
      invariant entries == HashtagEntries(tags[..i])
    {
      HashtagEntriesAppend(tags[..i], tags[i]);
      assert tags[..i + 1] == tags[..i] + [tags[i]];
      entries := entries + [TrendEntry("#" + tags[i].item, tags[i].count, Hashtag)];
      i := i + 1;
    }
    assert tags[..|tags|] == tags;
  }

  /** The phrase loop: one entry per top phrase. */
  method AppendTopics(phrases: seq<Tally<string>>) returns (entries: seq<TrendEntry>)
    ensures entries == TopicEntries(phrases)
  {
    entries := [];
    var i := 0;
    while i < |phrases|
      invariant 0 <= i <= |phrases|
      invariant entries == TopicEntries(phrases[..i])
    {
      TopicEntriesAppend(phrases[..i], phrases[i]);
      assert phrases[..i + 1] == phrases[..i] + [phrases[i]];
      entries := entries + [TrendEntry(phrases[i].item, phrases[i].count, Topic)];
      i := i + 1;
    }
    assert phrases[..|phrases|] == phrases;
  }

  /** The word loop: an entry for each top word that is long and not excluded. */
  method AppendWords(words: seq<Tally<string>>) returns (entries: seq<TrendEntry>)
    ensures entries == WordEntries(words)
  {
    entries := [];
    var i := 0;
    while i < |words|
      invariant 0 <= i <= |words|
      invariant entries == WordEntries(words[..i])
    {
      WordEntriesAppend(words[..i], words[i]);
      assert words[..i + 1] == words[..i] + [words[i]];
      if |words[i].item| > 4 && words[i].item !in ExcludedWords {
        entries := entries + [TrendEntry(words[i].item, words[i].count, Word)];
      }
      i := i + 1;
    }
    assert words[..|words|] == words;
  }

  lemma {:induction false} HashtagEntriesAppend(a: seq<Tally<string>>, x: Tally<string>)
    ensures HashtagEntries(a + [x]) == HashtagEntries(a) + [TrendEntry("#" + x.item, x.count, Hashtag)]
  {
    if a != [] {
      assert (a + [x])[1..] == a[1..] + [x];
      HashtagEntriesAppend(a[1..], x);
    }
  }

  lemma {:induction false} TopicEntriesAppend(a: seq<Tally<string>>, x: Tally<string>)
    ensures TopicEntries(a + [x]) == TopicEntries(a) + [TrendEntry(x.item, x.count, Topic)]
  {
    if a != [] {
      assert (a + [x])[1..] == a[1..] + [x];
      TopicEntriesAppend(a[1..], x);
    }
  }

  lemma {:induction false} WordEntriesAppend(a: seq<Tally<string>>, x: Tally<string>)
    ensures WordEntries(a + [x]) == WordEntries(a) + (if Reportable(x.item) then [TrendEntry(x.item, x.count, Word)] else [])
  {
    if a == [] {
      assert [x][1..] == [];
    } else {
      assert (a + [x])[1..] == a[1..] + [x];
      WordEntriesAppend(a[1..], x);
    }
  }

  // ---------------------------------------------------------------------------
  // research_trends

  /** `trend_cache`. */
  datatype TrendCache = TrendCache(trends: seq<TrendEntry>, lastUpdated: Option<string>)

  /** The dictionary `research_trends` answers: the trends with a timestamp,
      or the error text. */
  datatype Research = Research(trends: seq<TrendEntry>, timestamp: string) | ResearchError(error: string)

  /** The texts of the feed items, in order. */
  function Texts(items: seq<Item>): (r: seq<string>)
    ensures |r| == |items|
    ensures forall k :: 0 <= k < |items| ==> r[k] == items[k].text
  {
    if items == [] then [] else [items[0].text] + Texts(items[1..])
  }

  /** The number of items `research_trends` asks the feed for. */
  const FeedLimit: nat := 100

  class TrendResearcher {
    var trendCache: TrendCache

    constructor ()
      ensures trendCache == TrendCache([], None)
    {
      trendCache := TrendCache([], None);
    }

    /** `research_trends`: a failed feed fetch answers the error and leaves the
        cache alone; otherwise the cache holds the new trends. */
    method ResearchTrends(response: Result<seq<FeedViewPost>>, tokenize: string -> Tokens, now: string)
      returns (r: Research)
      modifies this
      ensures GetFeed(FeedLimit, response).Err? ==>
                r == ResearchError(GetFeed(FeedLimit, response).error) && trendCache == old(trendCache)
      ensures GetFeed(FeedLimit, response).Ok? ==>
                var trends := AnalyzeContentOf(Texts(GetFeed(FeedLimit, response).value), tokenize);
                r == Research(trends, now) && trendCache == TrendCache(trends, Some(now))
    {
      var feed := GetFeed(FeedLimit, response);
      if feed.Err? {
        return ResearchError(feed.error);
      }
      var trends := AnalyzeContent(Texts(feed.value), tokenize);
      trendCache := TrendCache(trends, Some(now));
      r := Research(trends, now);
    }
  }
}
