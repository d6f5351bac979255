/** The merge step of `save_mentions` in utils/mentions.py: the mentions already
    saved in the JSON file, followed by every fetched mention whose id is not
    yet there. Reading and writing the file, and the tweepy polling loop around
    it, are outside the model; the file's parsed content is an input. */
module MentionsFile {
  import opened Common

  /** A tweet as tweepy returns it. */
  datatype Tweet = Tweet(id: int, text: string, createdAt: Option<string>, authorId: int)

  /** The dictionary written for each mention. */
  datatype SavedMention = SavedMention(id: string, text: string, createdAt: Option<string>, authorId: string,
                                       savedAt: string)

  /** What reading the file gives: no file, a list of mentions, or an error
      (malformed JSON), which aborts the whole save. */
  datatype FileState = Missing | Present(entries: seq<SavedMention>) | Unreadable(error: string)

  /** The dictionary built for a tweet, with `str` of its ids. */
  function ToSaved(t: Tweet, savedAt: string): SavedMention
  {
    SavedMention(IntToString(t.id), t.text, t.createdAt, IntToString(t.authorId), savedAt)
  }

  /** `any(m['id'] == id for m in existing)`. */
  predicate HasId(entries: seq<SavedMention>, id: string)
  {
    exists k :: 0 <= k < |entries| && entries[k].id == id
  }

  /** One turn of the loop: the mention is appended unless its id is saved. */
  function AddNew(entries: seq<SavedMention>, m: SavedMention): seq<SavedMention>
  {
    if HasId(entries, m.id) then entries else entries + [m]
  }

  /** The list after the loop: each tweet, in order, is appended when no entry
      (saved before or appended earlier in this batch) has its id. */
  function Merge(existing: seq<SavedMention>, tweets: seq<Tweet>, savedAt: string): seq<SavedMention>
    decreases |tweets|
  {
    if tweets == [] then existing
    else Merge(AddNew(existing, ToSaved(tweets[0], savedAt)), tweets[1..], savedAt)
  }

  ghost predicate DistinctIds(entries: seq<SavedMention>)
  {
    forall i, j :: 0 <= i < j < |entries| ==> entries[i].id != entries[j].id
  }

  /** One turn keeps the list as a prefix, keeps ids distinct, and leaves the
      mention's id saved. */
  lemma AddNewSpec(entries: seq<SavedMention>, m: SavedMention)
    ensures var r := AddNew(entries, m);
            |entries| <= |r| <= |entries| + 1 && r[..|entries|] == entries && HasId(r, m.id)
    ensures forall k :: |entries| <= k < |AddNew(entries, m)| ==> AddNew(entries, m)[k] == m
    ensures DistinctIds(entries) ==> DistinctIds(AddNew(entries, m))
    ensures forall id :: HasId(entries, id) ==> HasId(AddNew(entries, m), id)
  {
    var r := AddNew(entries, m);
    if !HasId(entries, m.id) {
      assert r[|entries|].id == m.id;
    }
    forall id | HasId(entries, id) ensures HasId(r, id) {
      var k :| 0 <= k < |entries| && entries[k].id == id;
      assert r[k] == entries[k];
    }
  }

  lemma {:induction false} MergePrefix(existing: seq<SavedMention>, tweets: seq<Tweet>, savedAt: string)
    ensures var r := Merge(existing, tweets, savedAt);
            |existing| <= |r| && r[..|existing|] == existing
    ensures var r := Merge(existing, tweets, savedAt);
            forall k :: |existing| <= k < |r| ==> exists j :: 0 <= j < |tweets| && r[k] == ToSaved(tweets[j], savedAt)
    decreases |tweets|
  {
    if tweets != [] {
      var m := ToSaved(tweets[0], savedAt);
      var next := AddNew(existing, m);
      AddNewSpec(existing, m);
      MergePrefix(next, tweets[1..], savedAt);
      var r := Merge(existing, tweets, savedAt);
      assert r[..|existing|] == r[..|next|][..|existing|];
      forall k | |existing| <= k < |r| ensures exists j :: 0 <= j < |tweets| && r[k] == ToSaved(tweets[j], savedAt) {
        if k < |next| {
          assert r[k] == r[..|next|][k] == next[k] == m;
          assert r[k] == ToSaved(tweets[0], savedAt);
        } else {
          var j :| 0 <= j < |tweets[1..]| && r[k] == ToSaved(tweets[1..][j], savedAt);
          assert r[k] == ToSaved(tweets[j + 1], savedAt);
        }
      }
    }
  }

  lemma {:induction false} MergeDistinct(existing: seq<SavedMention>, tweets: seq<Tweet>, savedAt: string)
    requires DistinctIds(existing)
    ensures DistinctIds(Merge(existing, tweets, savedAt))
    decreases |tweets|
  {
    if tweets != [] {
      AddNewSpec(existing, ToSaved(tweets[0], savedAt));
      MergeDistinct(AddNew(existing, ToSaved(tweets[0], savedAt)), tweets[1..], savedAt);
    }
  }

  /** An id already saved stays saved. */
  lemma {:induction false} MergeKeepsIds(existing: seq<SavedMention>, tweets: seq<Tweet>, savedAt: string, id: string)
    requires HasId(existing, id)
    ensures HasId(Merge(existing, tweets, savedAt), id)
    decreases |tweets|
  {
    if tweets != [] {
      AddNewSpec(existing, ToSaved(tweets[0], savedAt));
      MergeKeepsIds(AddNew(existing, ToSaved(tweets[0], savedAt)), tweets[1..], savedAt, id);
    }
  }

  lemma {:induction false} MergeSavesAll(existing: seq<SavedMention>, tweets: seq<Tweet>, savedAt: string)
    ensures forall k :: 0 <= k < |tweets| ==> HasId(Merge(existing, tweets, savedAt), IntToString(tweets[k].id))
    decreases |tweets|
  {
    if tweets != [] {
      var m := ToSaved(tweets[0], savedAt);
      var next := AddNew(existing, m);
      AddNewSpec(existing, m);
      MergeSavesAll(next, tweets[1..], savedAt);
      MergeKeepsIds(next, tweets[1..], savedAt, m.id);
      forall k | 0 <= k < |tweets| ensures HasId(Merge(existing, tweets, savedAt), IntToString(tweets[k].id)) {
        if k > 0 {
          assert tweets[1..][k - 1] == tweets[k];
        }
      }
    }
  }

  /** What the merge promises: the saved entries stay first and in order,
      ids stay distinct, every fetched id ends up saved, and every appended
      entry is the dictionary of a fetched tweet. */
  lemma MergeSpec(existing: seq<SavedMention>, tweets: seq<Tweet>, savedAt: string)
    requires DistinctIds(existing)
    ensures var r := Merge(existing, tweets, savedAt);
            |existing| <= |r| && r[..|existing|] == existing
    ensures DistinctIds(Merge(existing, tweets, savedAt))
    ensures forall k :: 0 <= k < |tweets| ==> HasId(Merge(existing, tweets, savedAt), IntToString(tweets[k].id))
    ensures var r := Merge(existing, tweets, savedAt);
            forall k :: |existing| <= k < |r| ==> exists j :: 0 <= j < |tweets| && r[k] == ToSaved(tweets[j], savedAt)
  {
    MergePrefix(existing, tweets, savedAt);
    MergeDistinct(existing, tweets, savedAt);
    MergeSavesAll(existing, tweets, savedAt);
  }

  /** A batch with a repeated id saves it once. */
  lemma RepeatedIdSavedOnce(t: Tweet, savedAt: string)
    ensures Merge([], [t, t], savedAt) == [ToSaved(t, savedAt)]
  {
    var m := ToSaved(t, savedAt);
    assert [t, t][1..] == [t];
    assert AddNew([], m) == [m];
    assert [m][0].id == m.id;
    assert AddNew([m], m) == [m];
    assert [t][1..] == [];
    assert Merge([m], [t], savedAt) == Merge([m], [], savedAt);
    assert Merge([], [t, t], savedAt) == Merge([m], [t], savedAt);
  }

  /** The `any(...)` scan over the list. */
  method ScanForId(entries: seq<SavedMention>, id: string) returns (found: bool)
    ensures found == HasId(entries, id)
  {
    found := false;
    var j := 0;
    while j < |entries|
      invariant 0 <= j <= |entries|
      invariant found <==> exists k :: 0 <= k < j && entries[k].id == id
    {
      if entries[j].id == id {
        found := true;
      }
      j := j + 1;
    }
  }

  /** `save_mentions`: the list the file holds afterwards. An unreadable file
      is left as it is. */
  method SaveMentions(file: FileState, tweets: seq<Tweet>, savedAt: string) returns (written: FileState)
    ensures file.Unreadable? ==> written == file
    ensures file.Missing? ==> written == Present(Merge([], tweets, savedAt))
    ensures file.Present? ==> written == Present(Merge(file.entries, tweets, savedAt))
  {
    if file.Unreadable? {
      return file;
    }
    var existing := if file.Present? then file.entries else [];
    ghost var start := existing;
    var i := 0;
    while i < |tweets|
      invariant 0 <= i <= |tweets|
      invariant Merge(start, tweets, savedAt) == Merge(existing, tweets[i..], savedAt)
    {
      var m := ToSaved(tweets[i], savedAt);
      var found := ScanForId(existing, m.id);
      assert tweets[i..][1..] == tweets[i + 1..];
      if !found {
        existing := existing + [m];
      }
      i := i + 1;
    }
    written := Present(existing);
  }
}
