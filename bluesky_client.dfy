/** The atproto-backed Bluesky client of clients/bluesky_client.py: projection of
    notifications and timeline items into plain records, AT-URI handling, the reply
    reference attached to a post, and the notification cursor the client keeps. */
module BlueskyClient {
  import opened Common
  import opened Atproto

  const PostCollection: string := "app.bsky.feed.post"

  /** The reply data `_extract_reply_data` returns for a record with a reply. */
  datatype ReplyData = ReplyData(parentUri: Option<string>, rootUri: Option<string>)

  /** A notification projected by `get_mentions`. */
  datatype MentionData = MentionData(
    author: ProfileView,
    text: string,
    uri: string,
    cid: string,
    timestamp: string,
    replyTo: Option<string>,
    root: Option<string>,
    isRead: bool,
    labels: seq<string>)

  /** A timeline item projected by `get_feed`. */
  datatype FeedItem = FeedItem(
    author: ProfileView,
    text: string,
    uri: string,
    cid: string,
    timestamp: string,
    replyTo: Option<string>,
    root: Option<string>,
    labels: seq<string>)

  /** The post `get_post` returns. */
  datatype Post = Post(
    uri: string,
    cid: string,
    author: string,
    text: string,
    replyTo: Option<string>,
    root: Option<string>,
    createdAt: Option<string>,
    indexedAt: string)

  /** The parameters of a `list_notifications` request. */
  datatype NotificationRequest = NotificationRequest(limit: nat, cursor: Option<string>)

  /** What the cursor-aware `get_mentions` returns. */
  datatype MentionPage = MentionPage(mentions: seq<MentionData>, cursor: Option<string>)

  datatype CursorState = CursorState(cursor: Option<string>, timestamp: string)

  datatype StrongRef = StrongRef(uri: string, cid: string)
  datatype ReplyRefs = ReplyRefs(root: StrongRef, parent: StrongRef)

  /** The record `post_skeet` hands to `create_record`. */
  datatype NewPost = NewPost(text: string, createdAt: string, recordType: string, reply: Option<ReplyRefs>)
  datatype CreateRequest = CreateRequest(repo: string, collection: string, record: NewPost)

  /** One run of `post_skeet`: the uri it looked up for the reply reference (if any),
      the record it created, and the post uri it returned or the error it raised. */
  datatype SkeetAttempt = SkeetAttempt(lookedUp: Option<string>, request: CreateRequest, result: Result<string>)

  /** `_extract_reply_data`: the parent and root uris of a reply, None for a post
      that is not a reply. */
  function ExtractReplyData(record: PostRecord): (r: Option<ReplyData>)
    ensures r.Some? <==> record.reply.Some?
    ensures r.Some? ==> r.value.parentUri == record.reply.value.parentUri
    ensures r.Some? ==> r.value.rootUri == record.reply.value.rootUri
  {
    match record.reply
    case None => None
    case Some(reply) => Some(ReplyData(reply.parentUri, reply.rootUri))
  }

  function ParentOf(reply: Option<ReplyData>): Option<string>
  {
    if reply.Some? then reply.value.parentUri else None
  }

  function RootOf(reply: Option<ReplyData>): Option<string>
  {
    if reply.Some? then reply.value.rootUri else None
  }

  /** The mention record built for one notification. */
  function ToMention(n: Notification): (m: MentionData)
    ensures m.uri == n.uri && m.cid == n.cid && m.timestamp == n.indexedAt && m.author == n.author
    ensures m.text == TextOf(n.record)
    ensures n.record.reply.None? ==> m.replyTo.None? && m.root.None?
    ensures n.record.reply.Some? ==>
              m.replyTo == n.record.reply.value.parentUri && m.root == n.record.reply.value.rootUri
  {
    var reply := ExtractReplyData(n.record);
    MentionData(n.author, TextOf(n.record), n.uri, n.cid, n.indexedAt,
                ParentOf(reply), RootOf(reply), n.isRead, n.labels)
  }

  /** The projected mention notifications of a page, in delivery order. */
  function MentionsOf(ns: seq<Notification>): seq<MentionData>
  {
    if ns == [] then [] else (if IsMention(ns[0]) then [ToMention(ns[0])] else []) + MentionsOf(ns[1..])
  }

  lemma {:induction false} MentionsOfAppend(a: seq<Notification>, b: seq<Notification>)
    ensures MentionsOf(a + b) == MentionsOf(a) + MentionsOf(b)
  {
    if a == [] {
      assert a + b == b;
    } else {
      assert (a + b)[1..] == a[1..] + b;
      MentionsOfAppend(a[1..], b);
    }
  }

  /** Only mention notifications survive the projection, each one in place: the
      k-th projected mention is the k-th notification whose reason is "mention". */
  lemma {:induction false} MentionsOfIsFilteredProjection(ns: seq<Notification>)
    ensures |MentionsOf(ns)| == |Filter(ns, IsMention)|
    ensures forall k :: 0 <= k < |MentionsOf(ns)| ==> MentionsOf(ns)[k] == ToMention(Filter(ns, IsMention)[k])
  {
    if ns != [] {
      MentionsOfIsFilteredProjection(ns[1..]);
    }
  }

  function ToFeedItem(item: FeedViewPost): (f: FeedItem)
    ensures f.uri == item.post.uri && f.cid == item.post.cid && f.author == item.post.author
    ensures f.text == TextOf(item.post.record) && f.timestamp == item.post.indexedAt
    ensures item.post.record.reply.None? ==> f.replyTo.None? && f.root.None?
    ensures item.post.record.reply.Some? ==>
              f.replyTo == item.post.record.reply.value.parentUri && f.root == item.post.record.reply.value.rootUri
  {
    var reply := ExtractReplyData(item.post.record);
    FeedItem(item.post.author, TextOf(item.post.record), item.post.uri, item.post.cid,
             item.post.indexedAt, ParentOf(reply), RootOf(reply), item.post.labels)
  }

  function FeedItemsOf(items: seq<FeedViewPost>): (r: seq<FeedItem>)
    ensures |r| == |items|
    ensures forall k :: 0 <= k < |items| ==> r[k] == ToFeedItem(items[k])
  {
    if items == [] then [] else [ToFeedItem(items[0])] + FeedItemsOf(items[1..])
  }

  // ---------------------------------------------------------------------------
  // AT-URIs

  /** `_parse_at_uri`: the third '/'-separated piece (the repository DID) and the
      last piece (the record key); fewer than three pieces raise ValueError. */
  function ParseAtUri(uri: string): (r: Result<(string, string)>)
    ensures r.Ok? <==> |Split(uri, '/')| >= 3
    ensures r.Ok? ==> r.value.0 == Split(uri, '/')[2] && r.value.1 == Last(Split(uri, '/'))
    ensures r.Err? ==> r.error == "Invalid AT URI format: " + uri
  {
    var parts := Split(uri, '/');
    if |parts| < 3 then Err("Invalid AT URI format: " + uri)
    else Ok((parts[2], parts[|parts| - 1]))
  }

  /** The post uri `post_skeet` builds from the account DID and a record key. */
  function PostUri(did: string, rkey: string): string
  {
    "at://" + did + "/" + PostCollection + "/" + rkey
  }

  /** Parsing a post uri gives back its DID and record key, as long as neither
      contains a '/'. */
  lemma ParsePostUri(did: string, rkey: string)
    requires '/' !in did && '/' !in rkey
    ensures ParseAtUri(PostUri(did, rkey)) == Ok((did, rkey))
  {
    PostUriPieces(did, rkey);
    var pieces := ["at:", "", did, PostCollection, rkey];
    assert pieces[2] == did && Last(pieces) == rkey;
  }

  lemma CollectionHasNoSlash()
    ensures '/' !in PostCollection
  {
    assert forall k :: 0 <= k < |PostCollection| ==> PostCollection[k] != '/';
  }

  /** The pieces of a post uri, split at '/'. */
  lemma PostUriPieces(did: string, rkey: string)
    requires '/' !in did && '/' !in rkey
    ensures Split(PostUri(did, rkey), '/') == ["at:", "", did, PostCollection, rkey]
  {
    var tail3 := PostCollection + ['/'] + rkey;
    var tail2 := did + ['/'] + tail3;
    var tail1 := "" + ['/'] + tail2;
    assert PostUri(did, rkey) == "at:" + ['/'] + tail1;
    CollectionHasNoSlash();
    SplitLeadingPiece(PostCollection, rkey, '/');
    SplitNoSeparator(rkey, '/');
    SplitLeadingPiece(did, tail3, '/');
    SplitLeadingPiece("", tail2, '/');
    SplitLeadingPiece("at:", tail1, '/');
  }

  /** A piece without the separator, then the separator: the piece comes first. */
  lemma SplitLeadingPiece(a: string, rest: string, c: char)
    requires c !in a
    ensures Split(a + [c] + rest, c) == [a] + Split(rest, c)
  {
    SplitAround(a, rest, c);
    SplitNoSeparator(a, c);
  }

  /** The uri of the record `post_skeet` created: its own DID and the last
      '/'-segment of the uri create_record answered with. */
  function CreatedPostUri(did: string, responseUri: string): string
  {
    PostUri(did, Last(Split(responseUri, '/')))
  }

  /** Whatever create_record answers, the returned uri parses back to the
      account's DID and the answer's record key. */
  lemma CreatedPostUriParses(did: string, responseUri: string)
    requires '/' !in did
    ensures ParseAtUri(CreatedPostUri(did, responseUri)) == Ok((did, Last(Split(responseUri, '/'))))
  {
    SplitPiecesLackSeparator(responseUri, '/');
    ParsePostUri(did, Last(Split(responseUri, '/')));
  }

  /** `get_post`: None when the uri does not parse, when get_record raises and
      when it answers with no record; otherwise the post, under the uri asked for. */
  function GetPost(uri: string, response: Result<Option<RecordResponse>>, indexedAt: string): (r: Option<Post>)
    ensures r.Some? <==> ParseAtUri(uri).Ok? && response.Ok? && response.value.Some? && response.value.value.value.Some?
    ensures r.Some? ==> r.value.uri == uri && r.value.author == ParseAtUri(uri).value.0
    ensures r.Some? ==> r.value.cid == response.value.value.cid
    ensures r.Some? ==> r.value.text == TextOf(response.value.value.value.value)
  {
    match ParseAtUri(uri)
    case Err(_) => None
    case Ok((did, _)) =>
      if response.Err? || response.value.None? || response.value.value.value.None? then None
      else
        var value := response.value.value.value.value;
        var reply := ExtractReplyData(value);
        Some(Post(uri, response.value.value.cid, did, TextOf(value), ParentOf(reply), RootOf(reply),
                  value.createdAt, indexedAt))
  }

  class Client {
    const handle: string
    const did: string
    var lastCursor: Option<string>

    /** A logged-in client; the DID is the one login answered with. */
    constructor (handle: string, did: string)
      ensures this.handle == handle && this.did == did && lastCursor == None
    {
      this.handle := handle;
      this.did := did;
      lastCursor := None;
    }

    /** The live `get_mentions`: mention notifications only, in delivery order,
        at most `limit` of them; an error of list_notifications is re-raised. */
    method GetMentions(limit: nat, response: Result<NotificationPage>) returns (r: Result<seq<MentionData>>)
      ensures response.Err? ==> r == Err(response.error)
      ensures response.Ok? ==> r == Ok(Take(MentionsOf(response.value.notifications), limit))
    {
      if response.Err? {
        return Err(response.error);
      }
      var filtered := CollectMentions(response.value.notifications);
      r := Ok(Take(filtered, limit));
    }

    /** The cursor-aware `get_mentions` (defined first in the source and shadowed
        by the live one): sends the stored cursor when it is truthy, then stores
        the page's cursor, even when it is None, and returns it with the mentions. */
    method GetMentionsWithCursor(limit: nat, response: Result<NotificationPage>)
      returns (request: NotificationRequest, r: Result<MentionPage>)
      modifies this
      ensures request.limit == limit
      ensures request.cursor == if Truthy(old(lastCursor)) then old(lastCursor) else None
      ensures response.Err? ==> r == Err(response.error) && lastCursor == old(lastCursor)
      ensures response.Ok? ==> lastCursor == response.value.cursor
      ensures response.Ok? ==>
                r == Ok(MentionPage(Take(MentionsOf(response.value.notifications), limit), lastCursor))
    {
      request := NotificationRequest(limit, if Truthy(lastCursor) then lastCursor else None);
      if response.Err? {
        return request, Err(response.error);
      }
      lastCursor := response.value.cursor;
      var filtered := CollectMentions(response.value.notifications);
      r := Ok(MentionPage(Take(filtered, limit), lastCursor));
    }

    /** `set_cursor`: the stored cursor is overwritten, whatever it was. */
    method SetCursor(cursor: Option<string>)
      modifies this
      ensures lastCursor == cursor
    {
      lastCursor := cursor;
    }

    /** `get_cursor_state`: the stored cursor and the current RFC 3339 time. */
    function GetCursorState(now: string): (s: CursorState)
      reads this
      ensures s.cursor == lastCursor && s.timestamp == now
    {
      CursorState(lastCursor, now)
    }

    /** `post_skeet`. When `replyTo` is truthy the post at that uri is looked up
        (`fetched` is what get_post answers); a found post becomes both the root
        and the parent of the reply reference, otherwise the post is top-level.
        `created` is what create_record answers with or raises. */
    function PostSkeet(text: string, replyTo: Option<string>, fetched: Option<Post>, createdAt: string,
                       created: Result<string>): (a: SkeetAttempt)
      ensures a.lookedUp == if Truthy(replyTo) then replyTo else None
      ensures a.request.repo == did && a.request.collection == PostCollection
      ensures a.request.record.text == text && a.request.record.recordType == PostCollection
      ensures a.request.record.reply.Some? <==> Truthy(replyTo) && fetched.Some?
      ensures a.request.record.reply.Some? ==>
                a.request.record.reply.value.root == StrongRef(fetched.value.uri, fetched.value.cid) &&
                a.request.record.reply.value.parent == a.request.record.reply.value.root
      ensures created.Ok? ==> a.result == Ok(CreatedPostUri(did, created.value))
      ensures created.Err? ==> a.result == Err(created.error)
    {
      var replyRef :=
        if Truthy(replyTo) && fetched.Some? then
          var target := StrongRef(fetched.value.uri, fetched.value.cid);
          Some(ReplyRefs(target, target))
        else None;
      var request := CreateRequest(did, PostCollection, NewPost(text, createdAt, PostCollection, replyRef));
      var result := if created.Ok? then Ok(CreatedPostUri(did, created.value)) else Err(created.error);
      SkeetAttempt(if Truthy(replyTo) then replyTo else None, request, result)
    }

    /** `get_feed`: every timeline item, in order, at most `limit` of them. */
    method GetFeed(limit: nat, response: Result<seq<FeedViewPost>>) returns (r: Result<seq<FeedItem>>)
      ensures response.Err? ==> r == Err(response.error)
      ensures response.Ok? ==> r == Ok(Take(FeedItemsOf(response.value), limit))
    {
      if response.Err? {
        return Err(response.error);
      }
      var items := response.value;
      var feedItems: seq<FeedItem> := [];
      var i := 0;
      while i < |items|
        invariant 0 <= i <= |items|
        invariant feedItems == FeedItemsOf(items[..i])
      {
        assert items[..i + 1] == items[..i] + [items[i]];
        FeedItemsOfAppend(items[..i], [items[i]]);
        feedItems := feedItems + [ToFeedItem(items[i])];
        i := i + 1;
      }
      assert items[..|items|] == items;
      r := Ok(Take(feedItems, limit));
    }
  }

  /** The append loop shared by both `get_mentions`. */
  method CollectMentions(ns: seq<Notification>) returns (filtered: seq<MentionData>)
    ensures filtered == MentionsOf(ns)
  {
    filtered := [];
    var i := 0;
    while i < |ns|
      invariant 0 <= i <= |ns|
      invariant filtered == MentionsOf(ns[..i])
    {
      assert ns[..i + 1] == ns[..i] + [ns[i]];
      MentionsOfAppend(ns[..i], [ns[i]]);
      if IsMention(ns[i]) {
        filtered := filtered + [ToMention(ns[i])];
      }
      i := i + 1;
    }
    assert ns[..|ns|] == ns;
  }

  lemma FeedItemsOfAppend(a: seq<FeedViewPost>, b: seq<FeedViewPost>)
    ensures FeedItemsOf(a + b) == FeedItemsOf(a) + FeedItemsOf(b)
  {
  }

  /** The live `get_mentions` never returns more than `limit` records, and each
      is the projection of a mention notification of the page, in page order. */
  lemma GetMentionsBounded(ns: seq<Notification>, limit: nat)
    ensures |Take(MentionsOf(ns), limit)| <= limit
    ensures |Take(MentionsOf(ns), limit)| <= |Filter(ns, IsMention)|
    ensures forall k :: 0 <= k < |Take(MentionsOf(ns), limit)| ==>
              Take(MentionsOf(ns), limit)[k] == ToMention(Filter(ns, IsMention)[k])
  {
    MentionsOfIsFilteredProjection(ns);
  }
}
