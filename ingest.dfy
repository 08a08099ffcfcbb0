/** One aggregation cycle (`scrapeFeeds`, src/index.ts) and the start of the `agg` command
    (`handlerAgg`): pick the feed fetched longest ago, stamp it, fetch and normalise it,
    then insert its items one by one until the first one that fails. */
module Ingest {
  import opened Common
  import opened Schema
  import opened Queries
  import opened Rss
  import opened Duration

  /** The text of a member, when it is a text node. */
  function TextOf(n: Option<XmlNode>): (r: Option<string>)
    ensures r.Some? <==> n.Some? && n.value.Text?
    ensures r.Some? ==> r.value == n.value.text
  {
    if n.Some? && n.value.Text? then Some(n.value.text) else None
  }

  /** The arguments `scrapeFeeds` hands to `createPost` for one item: its title, its `link`
      as the URL, its description or null when that is missing or empty, its `pubDate` as
      the date parser reads it (a missing `pubDate` is an Invalid Date), and the feed's id. */
  function ItemArgs(item: XmlNode, parseDate: string -> Option<Timestamp>, feedId: Id): (r: PostArgs)
    ensures r.title == TextOf(Member(item, "title")) && r.url == TextOf(Member(item, "link"))
    ensures r.description.Some? <==> Truthy(Member(item, "description")) && TextOf(Member(item, "description")).Some?
    ensures r.description.Some? ==> r.description == TextOf(Member(item, "description"))
    ensures r.description != Some("")
    ensures TextOf(Member(item, "pubDate")).None? ==> r.publishedAt.None?
    ensures TextOf(Member(item, "pubDate")).Some? ==> r.publishedAt == parseDate(TextOf(Member(item, "pubDate")).value)
    ensures r.feedId == feedId
  {
    var description := TextOf(Member(item, "description"));
    var pubDate := TextOf(Member(item, "pubDate"));
    PostArgs(TextOf(Member(item, "title")),
             TextOf(Member(item, "link")),
             if description.Some? && description.value != "" then description else None,
             if pubDate.Some? then parseDate(pubDate.value) else None,
             feedId)
  }

  /** `ItemArgs` of every item, in document order. */
  function ItemsArgs(items: seq<XmlNode>, parseDate: string -> Option<Timestamp>, feedId: Id): (r: seq<PostArgs>)
    ensures |r| == |items|
    ensures forall k :: 0 <= k < |r| ==> r[k] == ItemArgs(items[k], parseDate, feedId)
  {
    seq(|items|, k requires 0 <= k < |items| => ItemArgs(items[k], parseDate, feedId))
  }

  /** The item whose insert threw, and what it threw. */
  datatype ItemFailure = ItemFailure(index: nat, error: Error)

  /** The posts table and id counter after the insert loop, and where it stopped, if it did. */
  datatype Ingested = Ingested(posts: seq<Post>, nextId: nat, failure: Option<ItemFailure>)

  /** The number of items the loop got through: up to the failing one, or all of them. */
  function Stop(g: Ingested, count: nat): nat
  {
    if g.failure.Some? then g.failure.value.index else count
  }

  /** The insert loop from item `i` on: each item goes through `createPost` in turn; the
      first one that throws ends the loop (the `catch` swallows the error), and the items
      before it stay inserted. */
  function IngestFrom(posts: seq<Post>, nextId: nat, feedIds: set<Id>, args: seq<PostArgs>,
                      i: nat, now: Timestamp): (r: Ingested)
    requires i <= |args|
    ensures posts <= r.posts && r.nextId == nextId + (|r.posts| - |posts|)
    ensures r.failure.Some? ==>
      && i <= r.failure.value.index < |args|
      && InsertPost(r.posts, feedIds, r.nextId, args[r.failure.value.index], now).outcome == Err(r.failure.value.error)
    ensures forall k :: i <= k < Stop(r, |args|) ==>
      args[k].publishedAt.Some? && args[k].title.Some? && args[k].url.Some? && UrlTaken(r.posts, args[k].url.value)
    ensures forall j :: |posts| <= j < |r.posts| ==>
      && r.posts[j].id == nextId + (j - |posts|)
      && r.posts[j].createdAt == now
      && (exists k :: i <= k < Stop(r, |args|) && args[k].url == Some(r.posts[j].url) &&
            args[k] == PostArgs(Some(r.posts[j].title), Some(r.posts[j].url), r.posts[j].description,
                                r.posts[j].publishedAt, r.posts[j].feedId))
    decreases |args| - i
  {
    if i == |args| then Ingested(posts, nextId, None)
    else
      var ins := InsertPost(posts, feedIds, nextId, args[i], now);
      if ins.outcome.Err? then Ingested(posts, nextId, Some(ItemFailure(i, ins.outcome.error)))
      else
        var r := IngestFrom(ins.posts, ins.nextId, feedIds, args, i + 1, now);
        assert UrlTaken(r.posts, args[i].url.value) by {
          if ins.outcome.value.Some? {
            assert ins.outcome.value.value in ins.posts;
          }
          var w :| w in ins.posts && w.url == args[i].url.value;
          assert w in r.posts;
        }
        r
  }

  /** Running the loop again over the same items, at any later time, changes nothing and
      stops at the same item with the same error: every item that got through before now
      has its URL in the table, so its insert is a conflict. */
  lemma {:induction false} IngestReplay(posts: seq<Post>, nextId: nat, feedIds: set<Id>, args: seq<PostArgs>,
                                        i: nat, now: Timestamp, later: Timestamp)
    requires i <= |args|
    ensures var r := IngestFrom(posts, nextId, feedIds, args, i, now);
            IngestFrom(r.posts, r.nextId, feedIds, args, i, later) == r
    decreases |args| - i
  {
    var r := IngestFrom(posts, nextId, feedIds, args, i, now);
    if i < |args| {
      var ins := InsertPost(posts, feedIds, nextId, args[i], now);
      if ins.outcome.Ok? {
        IngestReplay(ins.posts, ins.nextId, feedIds, args, i + 1, now, later);
        assert UrlTaken(ins.posts, args[i].url.value);
        var w :| w in ins.posts && w.url == args[i].url.value;
        assert w in r.posts;
        assert InsertPost(r.posts, feedIds, r.nextId, args[i], later).outcome == Ok(None);
      }
    }
  }

  /** The loop keeps the posts table consistent with the feeds it references. */
  lemma {:induction false} IngestKeepsPostsOk(posts: seq<Post>, nextId: nat, feeds: seq<Feed>,
                                              args: seq<PostArgs>, i: nat, now: Timestamp)
    requires i <= |args| && PostsOk(posts, feeds, nextId)
    ensures var r := IngestFrom(posts, nextId, FeedIds(feeds), args, i, now);
            PostsOk(r.posts, feeds, r.nextId)
    decreases |args| - i
  {
    if i < |args| {
      var ins := InsertPost(posts, FeedIds(feeds), nextId, args[i], now);
      InsertPostKeepsPostsOk(posts, feeds, nextId, args[i], now);
      if ins.outcome.Ok? {
        IngestKeepsPostsOk(ins.posts, ins.nextId, feeds, args, i + 1, now);
      }
    }
  }

  /** The first index from `i` on whose item carries `url` as its link, or `|args|`. */
  function FirstWithUrl(args: seq<PostArgs>, i: nat, url: string): (k: nat)
    requires i <= |args|
    ensures i <= k <= |args|
    ensures k < |args| ==> args[k].url == Some(url)
    ensures forall m :: i <= m < k ==> args[m].url != Some(url)
    decreases |args| - i
  {
    if i == |args| || args[i].url == Some(url) then i else FirstWithUrl(args, i + 1, url)
  }

  /** A post the loop adds carries a link that was not in the table before the loop. */
  lemma {:induction false} IngestAddsFreshUrls(posts: seq<Post>, nextId: nat, feedIds: set<Id>,
                                               args: seq<PostArgs>, i: nat, now: Timestamp)
    requires i <= |args|
    ensures var r := IngestFrom(posts, nextId, feedIds, args, i, now);
      forall j, p :: |posts| <= j < |r.posts| && p in posts ==> p.url != r.posts[j].url
    decreases |args| - i
  {
    var r := IngestFrom(posts, nextId, feedIds, args, i, now);
    if i < |args| {
      var ins := InsertPost(posts, feedIds, nextId, args[i], now);
      if ins.outcome.Ok? {
        IngestAddsFreshUrls(ins.posts, ins.nextId, feedIds, args, i + 1, now);
        assert r == IngestFrom(ins.posts, ins.nextId, feedIds, args, i + 1, now);
        assert posts <= ins.posts <= r.posts;
        forall j, p | |posts| <= j < |r.posts| && p in posts
          ensures p.url != r.posts[j].url
        {
          assert p in ins.posts;
          if j < |ins.posts| {
            var q := ins.outcome.value.value;
            assert r.posts[j] == ins.posts[j] == q;
            assert !UrlTaken(posts, q.url);
          }
        }
      }
    }
  }

  /** The first item with a given link wins: each new post is made from the first item
      (from `i` on) that carries its link, and that item comes before the stop. */
  lemma {:induction false} IngestFirstItemWins(posts: seq<Post>, nextId: nat, feedIds: set<Id>,
                                               args: seq<PostArgs>, i: nat, now: Timestamp)
    requires i <= |args|
    ensures var r := IngestFrom(posts, nextId, feedIds, args, i, now);
      forall j :: |posts| <= j < |r.posts| ==>
        var k := FirstWithUrl(args, i, r.posts[j].url);
        && k < Stop(r, |args|)
        && args[k] == PostArgs(Some(r.posts[j].title), Some(r.posts[j].url), r.posts[j].description,
                               r.posts[j].publishedAt, r.posts[j].feedId)
    decreases |args| - i
  {
    var r := IngestFrom(posts, nextId, feedIds, args, i, now);
    if i < |args| {
      var ins := InsertPost(posts, feedIds, nextId, args[i], now);
      if ins.outcome.Ok? {
        IngestFirstItemWins(ins.posts, ins.nextId, feedIds, args, i + 1, now);
        SkipsTakenUrl(posts, nextId, feedIds, args, i, now);
        assert r == IngestFrom(ins.posts, ins.nextId, feedIds, args, i + 1, now);
        if ins.outcome.value.Some? {
          var q := ins.outcome.value.value;
          assert r.posts[|posts|] == q by {
            assert ins.posts <= r.posts;
            assert ins.posts[|posts|] == q;
          }
          assert FirstWithUrl(args, i, q.url) == i;
        }
      }
    }
  }

  /** Later posts come from later items: the loop inserts in document order. */
  lemma {:induction false} IngestFollowsDocumentOrder(posts: seq<Post>, nextId: nat, feedIds: set<Id>,
                                                      args: seq<PostArgs>, i: nat, now: Timestamp)
    requires i <= |args|
    ensures var r := IngestFrom(posts, nextId, feedIds, args, i, now);
      forall j1, j2 :: |posts| <= j1 < j2 < |r.posts| ==>
        FirstWithUrl(args, i, r.posts[j1].url) < FirstWithUrl(args, i, r.posts[j2].url)
    decreases |args| - i
  {
    var r := IngestFrom(posts, nextId, feedIds, args, i, now);
    if i < |args| {
      var ins := InsertPost(posts, feedIds, nextId, args[i], now);
      if ins.outcome.Ok? {
        IngestFollowsDocumentOrder(ins.posts, ins.nextId, feedIds, args, i + 1, now);
        SkipsTakenUrl(posts, nextId, feedIds, args, i, now);
        assert r == IngestFrom(ins.posts, ins.nextId, feedIds, args, i + 1, now);
        if ins.outcome.value.Some? {
          var q := ins.outcome.value.value;
          assert r.posts[|posts|] == q by {
            assert ins.posts <= r.posts;
            assert ins.posts[|posts|] == q;
          }
          assert FirstWithUrl(args, i, q.url) == i;
        }
      }
    }
  }

  /** Every item before the stop was one `createPost` accepts: its feed exists, or its link
      was already in the table, or an earlier item (from `i` on) carries the same link, so
      the insert was a conflict and not a foreign-key violation. */
  lemma {:induction false} IngestPassesOnlyInsertable(posts: seq<Post>, nextId: nat, feedIds: set<Id>,
                                                      args: seq<PostArgs>, i: nat, now: Timestamp)
    requires i <= |args|
    ensures var r := IngestFrom(posts, nextId, feedIds, args, i, now);
      forall k :: i <= k < Stop(r, |args|) ==>
        args[k].feedId in feedIds || UrlTaken(posts, args[k].url.value) || FirstWithUrl(args, i, args[k].url.value) < k
    decreases |args| - i
  {
    var r := IngestFrom(posts, nextId, feedIds, args, i, now);
    if i < |args| {
      var ins := InsertPost(posts, feedIds, nextId, args[i], now);
      if ins.outcome.Ok? {
        var ps, ni := ins.posts, ins.nextId;
        IngestPassesOnlyInsertable(ps, ni, feedIds, args, i + 1, now);
        assert r == IngestFrom(ps, ni, feedIds, args, i + 1, now);
        forall k | i + 1 <= k < Stop(r, |args|) && args[k].feedId !in feedIds && !UrlTaken(posts, args[k].url.value)
          ensures FirstWithUrl(args, i, args[k].url.value) < k
        {
          var u := args[k].url.value;
          if UrlTaken(ps, u) {
            assert ps != posts;
            LinkAddedByItem(posts, ins.outcome.value.value, args, i, u);
          } else {
            assert FirstWithUrl(args, i + 1, u) < k;
          }
        }
      }
    }
  }

  /** A link that only the post made from item `i` brought into the table is item `i`'s. */
  lemma LinkAddedByItem(posts: seq<Post>, q: Post, args: seq<PostArgs>, i: nat, u: string)
    requires i < |args| && args[i].url == Some(q.url)
    requires UrlTaken(posts + [q], u) && !UrlTaken(posts, u)
    ensures FirstWithUrl(args, i, u) == i
  {
    var w :| w in posts + [q] && w.url == u;
    assert w !in posts;
  }

  /** When item `i` goes through, no post added after it shares its link, so for those posts
      the first item with their link lies past `i`. */
  lemma SkipsTakenUrl(posts: seq<Post>, nextId: nat, feedIds: set<Id>, args: seq<PostArgs>, i: nat, now: Timestamp)
    requires i < |args|
    requires InsertPost(posts, feedIds, nextId, args[i], now).outcome.Ok?
    ensures var ins := InsertPost(posts, feedIds, nextId, args[i], now);
            var r := IngestFrom(ins.posts, ins.nextId, feedIds, args, i + 1, now);
      forall j :: |ins.posts| <= j < |r.posts| ==>
        FirstWithUrl(args, i, r.posts[j].url) == FirstWithUrl(args, i + 1, r.posts[j].url)
  {
    var ins := InsertPost(posts, feedIds, nextId, args[i], now);
    var ps, ni := ins.posts, ins.nextId;
    var r := IngestFrom(ps, ni, feedIds, args, i + 1, now);
    IngestAddsFreshUrls(ps, ni, feedIds, args, i + 1, now);
    assert r == IngestFrom(ps, ni, feedIds, args, i + 1, now);
    assert UrlTaken(ps, args[i].url.value);
    var w :| w in ps && w.url == args[i].url.value;
    forall j | |ps| <= j < |r.posts|
      ensures FirstWithUrl(args, i, r.posts[j].url) == FirstWithUrl(args, i + 1, r.posts[j].url)
    {
      assert w.url != r.posts[j].url;
    }
  }

  /** What one cycle reports: no feed to fetch, the feed's items all went through, or the
      error the `catch` swallowed (a failed fetch, a missing channel, a failed insert). */
  datatype CycleReport = NothingToDo | Completed(feedName: string, found: nat) | Failed(feedName: string, error: Error)

  /** The tables one cycle leaves behind, and what it reports. */
  datatype CycleState = CycleState(feeds: seq<Feed>, posts: seq<Post>, nextId: nat, report: Result<CycleReport>)

  /** One cycle over the feeds, posts and id counter it starts from. The fetcher (HTTP
      request and XML parse) and the date parser are parameters. A store that cannot be
      reached fails the first select, outside the `try`, so that error escapes; everything
      from the fetch on is caught. The feed picked is stamped before it is fetched, so a feed
      that fails still goes to the back of the rotation. */
  function Cycle(feeds: seq<Feed>, posts: seq<Post>, nextId: nat, connected: bool, now: Timestamp,
                 fetchXml: string -> Result<XmlNode>, parseDate: string -> Option<Timestamp>): (c: CycleState)
    ensures c.report.Err? <==> !connected
    ensures !connected ==> c.report == Err(StoreUnavailable)
    ensures !connected || feeds == [] ==> c.feeds == feeds && c.posts == posts && c.nextId == nextId
    ensures connected && feeds == [] ==> c.report == Ok(NothingToDo)
    ensures connected && feeds != [] ==>
      var feed := NextFeedToFetch(feeds).value;
      && c.feeds == StampFeed(feeds, feed.id, now)
      && c.report.Ok? && !c.report.value.NothingToDo? && c.report.value.feedName == feed.name
      && (FetchFeed(feed.url, fetchXml).Err? ==>
            c.report == Ok(Failed(feed.name, FetchFeed(feed.url, fetchXml).error)) && c.posts == posts && c.nextId == nextId)
      && (forall j :: |posts| <= j < |c.posts| ==> c.posts[j].feedId == feed.id && c.posts[j].createdAt == now)
    ensures posts <= c.posts && c.nextId == nextId + (|c.posts| - |posts|)
  {
    if !connected then CycleState(feeds, posts, nextId, Err(StoreUnavailable))
    else
      match NextFeedToFetch(feeds)
      case None => CycleState(feeds, posts, nextId, Ok(NothingToDo))
      case Some(feed) =>
        var stamped := StampFeed(feeds, feed.id, now);
        match FetchFeed(feed.url, fetchXml)
        case Err(e) => CycleState(stamped, posts, nextId, Ok(Failed(feed.name, e)))
        case Ok(rss) =>
          var args := ItemsArgs(rss.channel.items, parseDate, feed.id);
          var g := IngestFrom(posts, nextId, FeedIds(feeds), args, 0, now);
          assert forall j :: |posts| <= j < |g.posts| ==> g.posts[j].feedId == feed.id by {
            forall j | |posts| <= j < |g.posts| ensures g.posts[j].feedId == feed.id {
              var k :| 0 <= k < Stop(g, |args|) && args[k].url == Some(g.posts[j].url) &&
                args[k] == PostArgs(Some(g.posts[j].title), Some(g.posts[j].url), g.posts[j].description,
                                    g.posts[j].publishedAt, g.posts[j].feedId);
              assert args[k].feedId == feed.id;
            }
          }
          CycleState(stamped, g.posts, g.nextId,
                     Ok(if g.failure.Some? then Failed(feed.name, g.failure.value.error)
                        else Completed(feed.name, |rss.channel.items|)))
  }

  /** A cycle keeps every constraint of the schema: the stamp changes no key, and each
      insert keeps the posts table consistent with the feeds. */
  lemma CycleKeepsConsistent(users: seq<User>, feeds: seq<Feed>, follows: seq<FeedFollow>, posts: seq<Post>,
                             nextId: nat, connected: bool, now: Timestamp,
                             fetchXml: string -> Result<XmlNode>, parseDate: string -> Option<Timestamp>)
    requires Consistent(users, feeds, follows, posts, nextId)
    ensures var c := Cycle(feeds, posts, nextId, connected, now, fetchXml, parseDate);
            Consistent(users, c.feeds, follows, c.posts, c.nextId)
  {
    var c := Cycle(feeds, posts, nextId, connected, now, fetchXml, parseDate);
    if connected && feeds != [] {
      var feed := NextFeedToFetch(feeds).value;
      StampKeepsFeedsOk(feeds, users, nextId, feed.id, now);
      var fetched := FetchFeed(feed.url, fetchXml);
      if fetched.Ok? {
        var args := ItemsArgs(fetched.value.channel.items, parseDate, feed.id);
        IngestKeepsPostsOk(posts, nextId, feeds, args, 0, now);
        RaiseNextId(users, c.feeds, follows, nextId, c.nextId);
      }
    }
  }

  /** Raising the id counter keeps the other tables' constraints. */
  lemma RaiseNextId(users: seq<User>, feeds: seq<Feed>, follows: seq<FeedFollow>, nextId: nat, later: nat)
    requires UsersOk(users, nextId) && FeedsOk(feeds, users, nextId) && FollowsOk(follows, users, feeds, nextId)
    requires nextId <= later
    ensures UsersOk(users, later) && FeedsOk(feeds, users, later) && FollowsOk(follows, users, feeds, later)
  {
  }

  /** `scrapeFeeds` on the store: it leaves the store's tables as `Cycle` describes and
      returns its report, inserting each post through `createPost` in turn. */
  method ScrapeFeeds(store: Store, now: Timestamp, fetchXml: string -> Result<XmlNode>,
                     parseDate: string -> Option<Timestamp>) returns (r: Result<CycleReport>)
    requires store.Valid()
    modifies store
    ensures store.Valid()
    ensures store.users == old(store.users) && store.follows == old(store.follows) && store.connected == old(store.connected)
    ensures var c := Cycle(old(store.feeds), old(store.posts), old(store.nextId), old(store.connected),
                           now, fetchXml, parseDate);
      store.feeds == c.feeds && store.posts == c.posts && store.nextId == c.nextId && r == c.report
  {
    if !store.connected {
      return Err(StoreUnavailable);
    }
    var next := NextFeedToFetch(store.feeds);
    if next.None? {
      return Ok(NothingToDo);
    }
    var feed := next.value;
    ghost var feedIds := FeedIds(store.feeds);
    StampKeepsFeedIds(store.feeds, feed.id, now);
    var _ := store.MarkFeedFetched(feed.id, now);

    var fetched := FetchFeed(feed.url, fetchXml);
    if fetched.Err? {
      return Ok(Failed(feed.name, fetched.error));
    }
    var items := fetched.value.channel.items;
    ghost var args := ItemsArgs(items, parseDate, feed.id);
    ghost var goal := IngestFrom(store.posts, store.nextId, feedIds, args, 0, now);
    var i := 0;
    while i < |items|
      invariant 0 <= i <= |items|
      invariant store.Valid() && store.connected
      invariant store.users == old(store.users) && store.follows == old(store.follows)
      invariant store.feeds == StampFeed(old(store.feeds), feed.id, now) && FeedIds(store.feeds) == feedIds
      invariant IngestFrom(store.posts, store.nextId, feedIds, args, i, now) == goal
    {
      var created := store.CreatePost(ItemArgs(items[i], parseDate, feed.id), now);
      if created.Err? {
        return Ok(Failed(feed.name, created.error));
      }
      i := i + 1;
    }
    return Ok(Completed(feed.name, |items|));
  }

  /** What `handlerAgg` has done by the time it waits for the interrupt: the interval it
      parsed and the outcome of the first cycle, which it starts without awaiting. */
  datatype AggStart = AggStart(interval: nat, firstCycle: Result<CycleReport>)

  /** `handlerAgg` up to the timer: the interval argument is required and must parse before
      any cycle runs; then one cycle runs. Its rejection is not awaited, so it does not
      reject the handler. */
  method HandlerAgg(store: Store, args: seq<string>, now: Timestamp, fetchXml: string -> Result<XmlNode>,
                    parseDate: string -> Option<Timestamp>) returns (r: Result<AggStart>)
    requires store.Valid()
    modifies store
    ensures store.Valid()
    ensures |args| == 0 ==> r == Err(UsageError)
    ensures |args| > 0 && ParseDuration(args[0]).Err? ==> r == Err(InvalidDuration(args[0]))
    ensures r.Err? ==> unchanged(store)
    ensures r.Ok? <==> |args| > 0 && ParseDuration(args[0]).Ok?
    ensures r.Ok? ==> r.value.interval == ParseDuration(args[0]).value
    ensures r.Ok? ==>
      var c := Cycle(old(store.feeds), old(store.posts), old(store.nextId), old(store.connected),
                     now, fetchXml, parseDate);
      && store.users == old(store.users) && store.follows == old(store.follows)
      && store.feeds == c.feeds && store.posts == c.posts && store.nextId == c.nextId
      && r.value.firstCycle == c.report
  {
    if |args| < 1 {
      return Err(UsageError);
    }
    var interval := ParseDuration(args[0]);
    if interval.Err? {
      return Err(interval.error);
    }
    var first := ScrapeFeeds(store, now, fetchXml, parseDate);
    return Ok(AggStart(interval.value, first));
  }
}
