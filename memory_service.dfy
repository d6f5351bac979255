/** The Redis-backed memory of services/memory_service.py: a post hash and an
    analysis hash per post key, and the sorted set `post_index` that orders
    the keys by post time. The sorted set is kept as a sequence in the order
    ZREVRANGE lists it: score descending, equal scores by member descending.
    Scores are whole seconds; ISO parsing is an input, JSON encoding of topic
    lists is taken as exact. A Redis that is down is the flag `available`. */
module Memory {
  import opened Common

  /** The value kinds `_serialize_value` distinguishes. A float carries its
      `str` text and any other value its `json.dumps` text. */
  datatype Value = Str(s: string) | Int(i: int) | Bool(b: bool) | Float(repr: string) | Other(json: string)

  /** `_serialize_value`: primitives through `str`, everything else as JSON. */
  function SerializeValue(v: Value): (r: string)
    ensures v.Str? ==> r == v.s
    ensures v.Int? ==> r == IntToString(v.i)
    ensures v.Bool? ==> r == (if v.b then "True" else "False")
    ensures v.Float? ==> r == v.repr
    ensures v.Other? ==> r == v.json
  {
    match v
    case Str(s) => s
    case Int(i) => IntToString(i)
    case Bool(b) => if b then "True" else "False"
    case Float(repr) => repr
    case Other(json) => json
  }

  /** `_parse_timestamp` on a string: a trailing 'Z' becomes "+00:00". */
  function ParseTimestamp(s: string): (r: string)
    ensures EndsWith(s, "Z") ==> r == s[..|s| - 1] + "+00:00"
    ensures !EndsWith(s, "Z") ==> r == s
    ensures !EndsWith(r, "Z")
  {
    if EndsWith(s, "Z") then
      var r := s[..|s| - 1] + "+00:00";
      assert r[|r| - 1..] == "0";
      r
    else s
  }

  /** Normalising twice is normalising once. */
  lemma ParseTimestampIdempotent(s: string)
    ensures ParseTimestamp(ParseTimestamp(s)) == ParseTimestamp(s)
  {
  }

  /** The hash `<key>:post`. */
  datatype PostData = PostData(text: string, uri: string, timestamp: string, author: string, metadata: string)

  /** The hash `<key>:analysis`, with the topic and idea lists decoded. */
  datatype AnalysisData = AnalysisData(opinion: string, topics: seq<string>, futurePostIdeas: seq<string>)

  /** A post dictionary; None is a missing key. */
  datatype PostInput = PostInput(uri: Option<string>, text: Option<string>, timestamp: Option<string>,
                                 author: Option<Value>)

  /** An analysis dictionary; None is a missing key. */
  datatype AnalysisInput = AnalysisInput(opinion: Option<string>, topics: Option<seq<string>>,
                                         futurePostIdeas: Option<seq<string>>)

  /** A trend of `get_recent_trends`, and an item of `find_similar_content`. */
  datatype Trend = Trend(topics: seq<string>, opinion: string)

  /** A member of the sorted set with its score. */
  datatype Entry = Entry(key: string, score: int)

  /** `"post:" + uri`, or the current time without a uri. */
  function PostKey(post: PostInput, nowIso: string): string
  {
    "post:" + (if post.uri.Some? then post.uri.value else nowIso)
  }

  /** Different uris never share a key. */
  lemma PostKeyInjective(a: PostInput, b: PostInput, nowIso: string)
    requires a.uri.Some? && b.uri.Some? && a.uri != b.uri
    ensures PostKey(a, nowIso) != PostKey(b, nowIso)
  {
    assert PostKey(a, nowIso)[5..] == a.uri.value;
    assert PostKey(b, nowIso)[5..] == b.uri.value;
  }

  function OrDefault(s: Option<string>, d: string): string
  {
    if s.Some? then s.value else d
  }

  function PostDataOf(post: PostInput, nowIso: string): PostData
  {
    PostData(OrDefault(post.text, ""), OrDefault(post.uri, ""),
             ParseTimestamp(OrDefault(post.timestamp, nowIso)),
             SerializeValue(if post.author.Some? then post.author.value else Str("")),
             "{}")
  }

  function AnalysisDataOf(analysis: AnalysisInput): AnalysisData
  {
    AnalysisData(OrDefault(analysis.opinion, ""),
                 if analysis.topics.Some? then analysis.topics.value else [],
                 if analysis.futurePostIdeas.Some? then analysis.futurePostIdeas.value else [])
  }

  // ---------------------------------------------------------------------------
  // The sorted set in ZREVRANGE order

  predicate StrLess(a: string, b: string)
  {
    StrLessEq(a, b) && a != b
  }

  /** `a` is listed before `b` by ZREVRANGE. */
  predicate Before(a: Entry, b: Entry)
  {
    a.score > b.score || (a.score == b.score && StrLess(b.key, a.key))
  }

  ghost predicate RevSorted(idx: seq<Entry>)
  {
    forall i, j :: 0 <= i < j < |idx| ==> Before(idx[i], idx[j])
  }

  function Keys(idx: seq<Entry>): (r: seq<string>)
    ensures |r| == |idx|
    ensures forall k :: 0 <= k < |idx| ==> r[k] == idx[k].key
  {
    if idx == [] then [] else [idx[0].key] + Keys(idx[1..])
  }

  lemma BeforeTotal(a: Entry, b: Entry)
    requires a.key != b.key
    ensures Before(a, b) || Before(b, a)
  {
    StrLessEqTotal(a.key, b.key);
  }

  lemma BeforeTransitive(a: Entry, b: Entry, c: Entry)
    requires Before(a, b) && Before(b, c)
    ensures Before(a, c)
  {
    if a.score == b.score && b.score == c.score {
      StrLessEqTransitive(c.key, b.key, a.key);
      if c.key == a.key {
        StrLessEqAntisymmetric(c.key, b.key);
      }
    }
  }

  lemma BeforeIrreflexive(a: Entry)
    ensures !Before(a, a)
  {
  }

  /** No member is listed twice. */
  ghost predicate UniqueKeys(idx: seq<Entry>)
  {
    forall i, j :: 0 <= i < j < |idx| ==> idx[i].key != idx[j].key
  }

  /** The entry inserted at its place among the others. */
  function Insert(idx: seq<Entry>, e: Entry): (r: seq<Entry>)
    ensures |r| == |idx| + 1
    ensures forall x :: x in r <==> x in idx || x == e
  {
    if idx == [] then [e]
    else if Before(e, idx[0]) then [e] + idx
    else [idx[0]] + Insert(idx[1..], e)
  }

  lemma {:induction false} InsertSorted(idx: seq<Entry>, e: Entry)
    requires RevSorted(idx)
    requires forall k :: 0 <= k < |idx| ==> idx[k].key != e.key
    ensures RevSorted(Insert(idx, e))
  {
    if idx != [] {
      if Before(e, idx[0]) {
        var r := [e] + idx;
        forall i, j | 0 <= i < j < |r| ensures Before(r[i], r[j]) {
          if i == 0 && j > 1 {
            BeforeTransitive(e, idx[0], idx[j - 1]);
          }
        }
      } else {
        BeforeTotal(e, idx[0]);
        InsertSorted(idx[1..], e);
        var rest := Insert(idx[1..], e);
        var r := [idx[0]] + rest;
        forall j | 0 <= j < |rest| ensures Before(idx[0], rest[j]) {
          assert rest[j] in rest;
          if rest[j] != e {
            var k :| 0 <= k < |idx[1..]| && idx[1..][k] == rest[j];
            assert idx[k + 1] == rest[j];
          }
        }
        forall i, j | 0 <= i < j < |r| ensures Before(r[i], r[j]) {
          if i == 0 {
            assert r[j] == rest[j - 1];
          } else {
            assert r[i] == rest[i - 1] && r[j] == rest[j - 1];
          }
        }
      }
    }
  }

  /** The entries of the other members. */
  function Remove(idx: seq<Entry>, key: string): (r: seq<Entry>)
    ensures |r| <= |idx|
    ensures forall x :: x in r <==> x in idx && x.key != key
  {
    Filter(idx, (x: Entry) => x.key != key)
  }

  lemma RemoveSorted(idx: seq<Entry>, key: string)
    requires RevSorted(idx)
    ensures RevSorted(Remove(idx, key))
  {
    FilterKeepsPairwise(idx, (x: Entry) => x.key != key, Before);
  }

  /** ZADD: the member's entry moves to its new score. */
  function ZAdd(idx: seq<Entry>, key: string, score: int): (r: seq<Entry>)
    ensures forall x :: x in r <==> (x in idx && x.key != key) || x == Entry(key, score)
  {
    Insert(Remove(idx, key), Entry(key, score))
  }

  lemma ZAddSorted(idx: seq<Entry>, key: string, score: int)
    requires RevSorted(idx)
    ensures RevSorted(ZAdd(idx, key, score))
  {
    RemoveSorted(idx, key);
    forall k | 0 <= k < |Remove(idx, key)| ensures Remove(idx, key)[k].key != key {
      assert Remove(idx, key)[k] in Remove(idx, key);
    }
    InsertSorted(Remove(idx, key), Entry(key, score));
  }

  lemma RemoveUnique(idx: seq<Entry>, key: string)
    requires UniqueKeys(idx)
    ensures UniqueKeys(Remove(idx, key))
  {
    FilterKeepsPairwise(idx, (x: Entry) => x.key != key, (a: Entry, b: Entry) => a.key != b.key);
  }

  lemma {:induction false} InsertUnique(idx: seq<Entry>, e: Entry)
    requires UniqueKeys(idx)
    requires forall k :: 0 <= k < |idx| ==> idx[k].key != e.key
    ensures UniqueKeys(Insert(idx, e))
  {
    if idx != [] && !Before(e, idx[0]) {
      InsertUnique(idx[1..], e);
      var rest := Insert(idx[1..], e);
      forall j | 0 <= j < |rest| ensures idx[0].key != rest[j].key {
        assert rest[j] in rest;
        if rest[j] != e {
          var k :| 0 <= k < |idx[1..]| && idx[1..][k] == rest[j];
          assert idx[k + 1] == rest[j];
        }
      }
      var r := [idx[0]] + rest;
      forall i, j | 0 <= i < j < |r| ensures r[i].key != r[j].key {
        if i == 0 {
          assert r[j] == rest[j - 1];
        } else {
          assert r[i] == rest[i - 1] && r[j] == rest[j - 1];
        }
      }
    }
  }

  /** ZADD keeps a member listed once. */
  lemma ZAddUnique(idx: seq<Entry>, key: string, score: int)
    requires UniqueKeys(idx)
    ensures UniqueKeys(ZAdd(idx, key, score))
    ensures exists k :: 0 <= k < |ZAdd(idx, key, score)| && ZAdd(idx, key, score)[k] == Entry(key, score)
  {
    RemoveUnique(idx, key);
    forall k | 0 <= k < |Remove(idx, key)| ensures Remove(idx, key)[k].key != key {
      assert Remove(idx, key)[k] in Remove(idx, key);
    }
    InsertUnique(Remove(idx, key), Entry(key, score));
    assert Entry(key, score) in ZAdd(idx, key, score);
  }

  /** The keys of a sequence of members, as a set. */
  function KeySet(keys: seq<string>): set<string>
  {
    set k | k in keys
  }

  /** The members `persist` drops: those scored at or before the cutoff. */
  function ExpiredKeys(idx: seq<Entry>, cutoff: int): seq<string>
  {
    Keys(Filter(idx, (x: Entry) => x.score <= cutoff))
  }

  lemma ExpiredKeysSpec(idx: seq<Entry>, cutoff: int, key: string)
    ensures key in KeySet(ExpiredKeys(idx, cutoff)) <==> exists x :: x in idx && x.key == key && x.score <= cutoff
  {
    var old_ := Filter(idx, (x: Entry) => x.score <= cutoff);
    if key in KeySet(ExpiredKeys(idx, cutoff)) {
      var k :| 0 <= k < |old_| && Keys(old_)[k] == key;
      assert old_[k] in idx;
    }
    if exists x :: x in idx && x.key == key && x.score <= cutoff {
      var x :| x in idx && x.key == key && x.score <= cutoff;
      var i :| 0 <= i < |idx| && idx[i] == x;
      var k :| 0 <= k < |old_| && old_[k] == x;
      assert Keys(old_)[k] == key;
    }
  }

  /** How many members `ZREVRANGE key 0 stop` lists for `stop = limit - 1`: a
      negative stop counts from the end, so a limit of 0 lists everything. */
  function RevRangeCount(size: nat, limit: int): (n: nat)
    ensures n <= size
    ensures limit >= 1 ==> n == Min(limit, size)
    ensures limit == 0 ==> n == size
  {
    var stop := limit - 1;
    var stop' := if stop < 0 then size + stop else stop;
    if stop' < 0 then 0 else Min(stop' + 1, size)
  }

  /** The trends of the listed keys that have an analysis, in listing order. */
  function TrendsOf(keys: seq<string>, analyses: map<string, AnalysisData>): (r: seq<Trend>)
    ensures |r| <= |keys|
  {
    if keys == [] then []
    else
      (if keys[0] in analyses then [Trend(analyses[keys[0]].topics, analyses[keys[0]].opinion)] else []) +
      TrendsOf(keys[1..], analyses)
  }

  lemma {:induction false} TrendsOfAppend(a: seq<string>, b: seq<string>, analyses: map<string, AnalysisData>)
    ensures TrendsOf(a + b, analyses) == TrendsOf(a, analyses) + TrendsOf(b, analyses)
  {
    if a == [] {
      assert a + b == b;
    } else {
      assert (a + b)[0] == a[0];
      assert (a + b)[1..] == a[1..] + b;
      TrendsOfAppend(a[1..], b, analyses);
    }
  }

  lemma {:induction false} TrendsOfAllAnalysed(keys: seq<string>, analyses: map<string, AnalysisData>)
    requires forall k :: 0 <= k < |keys| ==> keys[k] in analyses
    ensures |TrendsOf(keys, analyses)| == |keys|
    ensures forall k :: 0 <= k < |keys| ==>
              TrendsOf(keys, analyses)[k] == Trend(analyses[keys[k]].topics, analyses[keys[k]].opinion)
  {
    if keys != [] {
      TrendsOfAllAnalysed(keys[1..], analyses);
    }
  }

  /** An entry's topics match the query, compared lower-cased element by element. */
  predicate Matches(topics: seq<string>, topic: string)
  {
    exists k :: 0 <= k < |topics| && Lower(topics[k]) == Lower(topic)
  }

  /** The entries of the listed keys whose topics match, in listing order. */
  function SimilarOf(keys: seq<string>, analyses: map<string, AnalysisData>, topic: string): (r: seq<Trend>)
    ensures |r| <= |keys|
    ensures forall k :: 0 <= k < |r| ==> Matches(r[k].topics, topic)
  {
    if keys == [] then []
    else
      (if keys[0] in analyses && Matches(analyses[keys[0]].topics, topic)
       then [Trend(analyses[keys[0]].topics, analyses[keys[0]].opinion)] else []) +
      SimilarOf(keys[1..], analyses, topic)
  }

  lemma {:induction false} SimilarOfAppend(a: seq<string>, b: seq<string>, analyses: map<string, AnalysisData>,
                                           topic: string)
    ensures SimilarOf(a + b, analyses, topic) == SimilarOf(a, analyses, topic) + SimilarOf(b, analyses, topic)
  {
    if a == [] {
      assert a + b == b;
    } else {
      assert (a + b)[0] == a[0];
      assert (a + b)[1..] == a[1..] + b;
      SimilarOfAppend(a[1..], b, analyses, topic);
    }
  }

  /** `t` is the trend of one of `keys` that has an analysis whose topics match. */
  ghost predicate FromMatchingAnalysis(t: Trend, keys: seq<string>, analyses: map<string, AnalysisData>, topic: string)
  {
    exists key :: key in keys && key in analyses && Matches(analyses[key].topics, topic) &&
      t == Trend(analyses[key].topics, analyses[key].opinion)
  }

  /** Every similar entry comes from a listed key with a matching analysis. */
  lemma {:induction false} SimilarOfSources(keys: seq<string>, analyses: map<string, AnalysisData>, topic: string)
    ensures forall k :: 0 <= k < |SimilarOf(keys, analyses, topic)| ==>
              FromMatchingAnalysis(SimilarOf(keys, analyses, topic)[k], keys, analyses, topic)
  {
    if keys != [] {
      SimilarOfSources(keys[1..], analyses, topic);
      var head := if keys[0] in analyses && Matches(analyses[keys[0]].topics, topic)
                  then [Trend(analyses[keys[0]].topics, analyses[keys[0]].opinion)] else [];
      var r := SimilarOf(keys, analyses, topic);
      var tail := SimilarOf(keys[1..], analyses, topic);
      assert r == head + tail;
      forall k | 0 <= k < |r| ensures FromMatchingAnalysis(r[k], keys, analyses, topic) {
        if k < |head| {
          assert keys[0] in keys;
        } else {
          assert r[k] == tail[k - |head|];
          assert FromMatchingAnalysis(tail[k - |head|], keys[1..], analyses, topic);
          var key :| key in keys[1..] && key in analyses && Matches(analyses[key].topics, topic) &&
                       tail[k - |head|] == Trend(analyses[key].topics, analyses[key].opinion);
          assert key in keys;
        }
      }
    }
  }

  /** Matching ignores ASCII case but not content: a topic matches itself in
      any case, and a topic that only contains the query does not match. */
  lemma MatchesIsElementwise(topic: string)
    ensures Matches([topic], topic)
    ensures Matches(["Rust"], "rust")
    ensures !Matches(["rustacean"], "rust")
  {
    assert Lower([topic][0]) == Lower(topic);
    assert Lower(["Rust"][0]) == Lower("rust") by {
      assert Lower("Rust") == "rust";
      assert Lower("rust") == "rust";
    }
    assert |Lower("rustacean")| != |Lower("rust")|;
  }

  /** Seven days, the age after which `persist` drops an entry. */
  const RetentionSeconds: int := 7 * 24 * 60 * 60

  class MemoryStore {
    var posts: map<string, PostData>
    var analyses: map<string, AnalysisData>
    var index: seq<Entry>

    ghost predicate Valid()
      reads this
    {
      RevSorted(index) && UniqueKeys(index)
    }

    constructor ()
      ensures Valid() && posts == map[] && analyses == map[] && index == []
    {
      posts := map[];
      analyses := map[];
      index := [];
    }

    /** `store_analysis`. `parsedScore` is the epoch seconds of the normalised
        timestamp, None when `fromisoformat` rejects it: the two hashes are then
        written but the key is not indexed, and the answer is False. */
    method StoreAnalysis(post: PostInput, analysis: AnalysisInput, nowIso: string, parsedScore: Option<int>,
                         available: bool) returns (ok: bool)
      requires Valid()
      modifies this
      ensures Valid()
      ensures ok <==> available && parsedScore.Some?
      ensures !available ==> posts == old(posts) && analyses == old(analyses) && index == old(index)
      ensures available ==>
                posts == old(posts)[PostKey(post, nowIso) := PostDataOf(post, nowIso)] &&
                analyses == old(analyses)[PostKey(post, nowIso) := AnalysisDataOf(analysis)]
      ensures available && parsedScore.None? ==> index == old(index)
      ensures available && parsedScore.Some? ==>
                index == ZAdd(old(index), PostKey(post, nowIso), parsedScore.value)
    {
      if !available {
        return false;
      }
      var key := PostKey(post, nowIso);
      posts := posts[key := PostDataOf(post, nowIso)];
      analyses := analyses[key := AnalysisDataOf(analysis)];
      if parsedScore.None? {
        return false;
      }
      ZAddSorted(index, key, parsedScore.value);
      ZAddUnique(index, key, parsedScore.value);
      index := ZAdd(index, key, parsedScore.value);
      ok := true;
    }

    /** `get_recent_trends`: the first members ZREVRANGE lists for the limit,
        those with an analysis, in that order; [] when Redis fails. */
    method GetRecentTrends(limit: int, available: bool) returns (trends: seq<Trend>)
      ensures !available ==> trends == []
      ensures available ==> trends == TrendsOf(Keys(index)[..RevRangeCount(|index|, limit)], analyses)
    {
      if !available {
        return [];
      }
      var keys := Keys(index)[..RevRangeCount(|index|, limit)];
      trends := [];
      var i := 0;
      while i < |keys|
        invariant 0 <= i <= |keys|
        invariant trends == TrendsOf(keys[..i], analyses)
      {
        assert keys[..i + 1] == keys[..i] + [keys[i]];
        TrendsOfAppend(keys[..i], [keys[i]], analyses);
        if keys[i] in analyses {
          trends := trends + [Trend(analyses[keys[i]].topics, analyses[keys[i]].opinion)];
        }
        i := i + 1;
      }
      assert keys[..|keys|] == keys;
    }

    /** `find_similar_content`: over every member, newest first, the entries
        with a matching topic, at most ten; [] when Redis fails. */
    method FindSimilarContent(topic: string, available: bool) returns (similar: seq<Trend>)
      ensures !available ==> similar == []
      ensures available ==> similar == Take(SimilarOf(Keys(index), analyses, topic), 10)
    {
      if !available {
        return [];
      }
      var keys := Keys(index);
      var found: seq<Trend> := [];
      var i := 0;
      while i < |keys|
        invariant 0 <= i <= |keys|
        invariant found == SimilarOf(keys[..i], analyses, topic)
      {
        assert keys[..i + 1] == keys[..i] + [keys[i]];
        SimilarOfAppend(keys[..i], [keys[i]], analyses, topic);
        if keys[i] in analyses && Matches(analyses[keys[i]].topics, topic) {
          found := found + [Trend(analyses[keys[i]].topics, analyses[keys[i]].opinion)];
        }
        i := i + 1;
      }
      assert keys[..|keys|] == keys;
      similar := Take(found, 10);
    }

    /** `persist`: every member scored at or before the cutoff a week ago
        loses both hashes and its entry; newer members are kept, in order. */
    method Persist(now: int, available: bool) returns (ok: bool)
      requires Valid()
      modifies this
      ensures Valid()
      ensures ok == available
      ensures !available ==> posts == old(posts) && analyses == old(analyses) && index == old(index)
      ensures available ==>
                var expired := KeySet(ExpiredKeys(old(index), now - RetentionSeconds));
                index == Newer(old(index), now - RetentionSeconds) &&
                posts == old(posts) - expired && analyses == old(analyses) - expired
    {
      if !available {
        return false;
      }
      var cutoff := now - RetentionSeconds;
      DeleteHashes(ExpiredKeys(index, cutoff));
      NewerValid(index, cutoff);
      index := Newer(index, cutoff);
      ok := true;
    }

    /** The DELETE of both hashes of each key, one key after the other. */
    method DeleteHashes(keys: seq<string>)
      modifies this
      ensures posts == old(posts) - KeySet(keys) && analyses == old(analyses) - KeySet(keys)
      ensures index == old(index)
    {
      var i := 0;
      while i < |keys|
        invariant 0 <= i <= |keys|
        invariant posts == old(posts) - KeySet(keys[..i]) && analyses == old(analyses) - KeySet(keys[..i])
        invariant index == old(index)
      {
        assert KeySet(keys[..i + 1]) == KeySet(keys[..i]) + {keys[i]} by {
          assert keys[..i + 1] == keys[..i] + [keys[i]];
        }
        posts := posts - {keys[i]};
        analyses := analyses - {keys[i]};
        i := i + 1;
      }
      assert keys[..|keys|] == keys;
    }
  }

  /** The members newer than the cutoff, in listing order. */
  function Newer(idx: seq<Entry>, cutoff: int): seq<Entry>
  {
    Filter(idx, (x: Entry) => x.score > cutoff)
  }

  lemma NewerValid(idx: seq<Entry>, cutoff: int)
    requires RevSorted(idx) && UniqueKeys(idx)
    ensures RevSorted(Newer(idx, cutoff)) && UniqueKeys(Newer(idx, cutoff))
  {
    FilterKeepsPairwise(idx, (x: Entry) => x.score > cutoff, Before);
    FilterKeepsPairwise(idx, (x: Entry) => x.score > cutoff, (a: Entry, b: Entry) => a.key != b.key);
  }

  /** Since a member is listed once, the hashes of a member newer than the
      cutoff survive `persist`: that is, a kept member never has its key among
      the dropped ones. */
  lemma NewerNotExpired(idx: seq<Entry>, cutoff: int, x: Entry)
    requires UniqueKeys(idx)
    requires x in Newer(idx, cutoff)
    ensures x in idx && x.score > cutoff
    ensures x.key !in KeySet(ExpiredKeys(idx, cutoff))
  {
    ExpiredKeysSpec(idx, cutoff, x.key);
  }

}
