/** The thin atproto wrapper of blusky_api/client.py, used by the Blusky services:
    its records carry the author's handle only, and the record text is read
    without a default, so a record without text makes the whole call fail. */
module BluskyApiClient {
  import opened Common
  import opened Atproto

  /** The dictionary `get_mentions` and `get_feed` build for each item. */
  datatype Item = Item(author: string, text: string, uri: string, timestamp: string)

  /** What `send_post` is asked to send. */
  datatype SendRequest = SendRequest(text: string, replyTo: Option<string>)

  const MissingText: string := "AttributeError: record has no attribute 'text'"

  function MentionItem(n: Notification): Option<Item>
  {
    if n.record.text.None? then None else Some(Item(n.author.handle, n.record.text.value, n.uri, n.indexedAt))
  }

  /** The list comprehension of `get_mentions`, over the whole page (it is built
      before it is sliced): None when a kept notification has no text. */
  function MentionItems(ns: seq<Notification>): (r: Option<seq<Item>>)
  {
    if ns == [] then Some([])
    else
      var rest := MentionItems(ns[1..]);
      if !IsMention(ns[0]) then rest
      else if ns[0].record.text.None? || rest.None? then None
      else Some([MentionItem(ns[0]).value] + rest.value)
  }

  /** Every kept notification has a text. */
  ghost predicate MentionsHaveText(ns: seq<Notification>)
  {
    forall i :: 0 <= i < |ns| && IsMention(ns[i]) ==> ns[i].record.text.Some?
  }

  lemma {:induction false} MentionItemsDefined(ns: seq<Notification>)
    ensures MentionItems(ns).Some? <==> MentionsHaveText(ns)
  {
    if ns != [] {
      MentionItemsDefined(ns[1..]);
      if MentionsHaveText(ns) {
        assert MentionsHaveText(ns[1..]) by {
          forall i | 0 <= i < |ns[1..]| && IsMention(ns[1..][i]) ensures ns[1..][i].record.text.Some? {
            assert ns[1..][i] == ns[i + 1];
          }
        }
      }
      if MentionsHaveText(ns[1..]) && (!IsMention(ns[0]) || ns[0].record.text.Some?) {
        assert MentionsHaveText(ns) by {
          forall i | 0 <= i < |ns| && IsMention(ns[i]) ensures ns[i].record.text.Some? {
            if i > 0 {
              assert ns[i] == ns[1..][i - 1];
            }
          }
        }
      }
    }
  }

  lemma {:induction false} MentionItemsProjected(ns: seq<Notification>)
    requires MentionItems(ns).Some?
    ensures |MentionItems(ns).value| == |Filter(ns, IsMention)|
    ensures forall k :: 0 <= k < |MentionItems(ns).value| ==>
              Some(MentionItems(ns).value[k]) == MentionItem(Filter(ns, IsMention)[k])
  {
    if ns != [] {
      MentionItemsProjected(ns[1..]);
      var rest := MentionItems(ns[1..]).value;
      var kept := Filter(ns[1..], IsMention);
      if IsMention(ns[0]) {
        var r := MentionItems(ns).value;
        assert r == [MentionItem(ns[0]).value] + rest;
        assert Filter(ns, IsMention) == [ns[0]] + kept;
        forall k | 0 <= k < |r| ensures Some(r[k]) == MentionItem(Filter(ns, IsMention)[k]) {
          if k > 0 {
            assert r[k] == rest[k - 1];
          }
        }
      } else {
        assert Filter(ns, IsMention) == kept;
      }
    }
  }

  /** The comprehension succeeds exactly when every mention has a text, and then
      it is the mention notifications, projected in place. */
  lemma MentionItemsSpec(ns: seq<Notification>)
    ensures MentionItems(ns).Some? <==> MentionsHaveText(ns)
    ensures MentionItems(ns).Some? ==> |MentionItems(ns).value| == |Filter(ns, IsMention)|
    ensures MentionItems(ns).Some? ==>
              forall k :: 0 <= k < |MentionItems(ns).value| ==>
                Some(MentionItems(ns).value[k]) == MentionItem(Filter(ns, IsMention)[k])
  {
    MentionItemsDefined(ns);
    if MentionItems(ns).Some? {
      MentionItemsProjected(ns);
    }
  }

  /** `get_mentions`: the mention notifications as items, in order, at most
      `limit`; any failure of the request or of the projection is re-raised. */
  function GetMentions(limit: nat, response: Result<NotificationPage>): (r: Result<seq<Item>>)
    ensures response.Err? ==> r == Err(response.error)
    ensures r.Ok? ==> |r.value| <= limit
    ensures response.Ok? && MentionItems(response.value.notifications).Some? ==>
              r == Ok(Take(MentionItems(response.value.notifications).value, limit))
    ensures response.Ok? && MentionItems(response.value.notifications).None? ==> r == Err(MissingText)
  {
    if response.Err? then Err(response.error)
    else
      var items := MentionItems(response.value.notifications);
      if items.None? then Err(MissingText) else Ok(Take(items.value, limit))
  }

  /** Every item `get_mentions` returns belongs to a mention notification of
      the page, at the same position among the mentions. */
  lemma GetMentionsFromMentions(limit: nat, page: NotificationPage)
    requires GetMentions(limit, Ok(page)).Ok?
    ensures |GetMentions(limit, Ok(page)).value| <= |Filter(page.notifications, IsMention)|
    ensures forall k :: 0 <= k < |GetMentions(limit, Ok(page)).value| ==>
              Some(GetMentions(limit, Ok(page)).value[k]) == MentionItem(Filter(page.notifications, IsMention)[k])
  {
    MentionItemsSpec(page.notifications);
  }

  function FeedItem(item: FeedViewPost): Option<Item>
  {
    if item.post.record.text.None? then None
    else Some(Item(item.post.author.handle, item.post.record.text.value, item.post.uri, item.post.indexedAt))
  }

  /** The comprehension of `get_feed`: None when some item has no text. */
  function FeedItems(items: seq<FeedViewPost>): (r: Option<seq<Item>>)
    ensures r.Some? ==> |r.value| == |items|
    ensures r.Some? ==> forall k :: 0 <= k < |items| ==> FeedItem(items[k]) == Some(r.value[k])
    ensures r.None? ==> exists k :: 0 <= k < |items| && FeedItem(items[k]).None?
  {
    if items == [] then Some([])
    else
      var rest := FeedItems(items[1..]);
      if FeedItem(items[0]).None? then None
      else if rest.None? then
        assert exists k :: 0 <= k < |items[1..]| && FeedItem(items[1..][k]).None?;
        var k :| 0 <= k < |items[1..]| && FeedItem(items[1..][k]).None?;
        assert items[k + 1] == items[1..][k];
        None
      else Some([FeedItem(items[0]).value] + rest.value)
  }

  /** `get_feed`: every timeline item, in order, at most `limit`. Every item
      is converted before the slice, so an item without text fails the call
      even when it lies beyond `limit`. */
  function GetFeed(limit: nat, response: Result<seq<FeedViewPost>>): (r: Result<seq<Item>>)
    ensures response.Err? ==> r == Err(response.error)
    ensures r.Ok? ==> |r.value| == Min(limit, |response.value|)
    ensures r.Ok? ==> forall k :: 0 <= k < |r.value| ==> FeedItem(response.value[k]) == Some(r.value[k])
    ensures response.Ok? && (forall k :: 0 <= k < |response.value| ==> FeedItem(response.value[k]).Some?) ==> r.Ok?
    ensures response.Ok? && (exists k :: 0 <= k < |response.value| && FeedItem(response.value[k]).None?) ==>
              r == Err(MissingText)
  {
    if response.Err? then Err(response.error)
    else
      var items := FeedItems(response.value);
      if items.None? then Err(MissingText) else Ok(Take(items.value, limit))
  }

  /** `post_skeet`: sends the text with the reply target as given and returns
      the uri of the created post; a failure is re-raised. */
  function PostSkeet(text: string, replyTo: Option<string>, sent: Result<(string, string)>): (r: (SendRequest, Result<string>))
    ensures r.0 == SendRequest(text, replyTo)
    ensures sent.Ok? ==> r.1 == Ok(sent.value.0)
    ensures sent.Err? ==> r.1 == Err(sent.error)
  {
    (SendRequest(text, replyTo), if sent.Ok? then Ok(sent.value.0) else Err(sent.error))
  }
}
