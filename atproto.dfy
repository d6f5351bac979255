/** The shapes of the atproto objects the two Bluesky clients read. Attribute
    reads that go through `getattr` with a default are Option fields here. */
module Atproto {
  import opened Common

  /** A profile view: the author of a notification or of a post. */
  datatype ProfileView = ProfileView(
    did: string,
    handle: string,
    displayName: Option<string>,
    avatar: Option<string>,
    description: Option<string>)

  /** A reply reference of a post record: the uris of its parent and root posts. */
  datatype ReplyRef = ReplyRef(parentUri: Option<string>, rootUri: Option<string>)

  /** A post record; `text` and `createdAt` are None when the attribute is missing. */
  datatype PostRecord = PostRecord(text: Option<string>, reply: Option<ReplyRef>, createdAt: Option<string>)

  datatype Notification = Notification(
    reason: string,
    uri: string,
    cid: string,
    indexedAt: string,
    isRead: bool,
    author: ProfileView,
    record: PostRecord,
    labels: seq<string>)

  /** The answer of `list_notifications`. */
  datatype NotificationPage = NotificationPage(notifications: seq<Notification>, cursor: Option<string>)

  datatype PostView = PostView(
    uri: string,
    cid: string,
    author: ProfileView,
    record: PostRecord,
    indexedAt: string,
    labels: seq<string>)

  /** One item of `get_timeline`'s feed. */
  datatype FeedViewPost = FeedViewPost(post: PostView)

  /** The answer of `get_record`; `value` is None when the record is empty. */
  datatype RecordResponse = RecordResponse(cid: string, value: Option<PostRecord>)

  /** The notifications both clients keep: those whose reason is "mention". */
  predicate IsMention(n: Notification)
  {
    n.reason == "mention"
  }

  /** `getattr(record, 'text', '')`. */
  function TextOf(record: PostRecord): string
  {
    if record.text.Some? then record.text.value else ""
  }
}
