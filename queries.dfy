/** The read-only selects of src/db/queries.ts as functions of the tables, and the
    table semantics of the two writes the ingestion cycle performs (stamping a
    feed, inserting a post) as functions that the store's methods follow. */
module Queries {
  import opened Common
  import opened Schema

  // ---------------------------------------------------------------- lookups

  /** `getUser`: the user with this name, if there is one. */
  function GetUser(users: seq<User>, name: string): (r: Option<User>)
    ensures r.Some? ==> r.value in users && r.value.name == name
    ensures r.None? ==> forall u :: u in users ==> u.name != name
  {
    if users == [] then None
    else if users[0].name == name then Some(users[0])
    else GetUser(users[1..], name)
  }

  /** The user a foreign key points at. */
  function UserById(users: seq<User>, id: Id): (r: Option<User>)
    ensures r.Some? ==> r.value in users && r.value.id == id
    ensures r.None? <==> id !in UserIds(users)
  {
    if users == [] then None
    else if users[0].id == id then Some(users[0])
    else UserById(users[1..], id)
  }

  /** `getFeedByUrl`: the feed with this URL, if there is one. */
  function GetFeedByUrl(feeds: seq<Feed>, url: string): (r: Option<Feed>)
    ensures r.Some? ==> r.value in feeds && r.value.url == url
    ensures r.None? ==> forall f :: f in feeds ==> f.url != url
  {
    if feeds == [] then None
    else if feeds[0].url == url then Some(feeds[0])
    else GetFeedByUrl(feeds[1..], url)
  }

  /** The feed a foreign key points at. */
  function FeedById(feeds: seq<Feed>, id: Id): (r: Option<Feed>)
    ensures r.Some? ==> r.value in feeds && r.value.id == id
    ensures r.None? <==> id !in FeedIds(feeds)
  {
    if feeds == [] then None
    else if feeds[0].id == id then Some(feeds[0])
    else FeedById(feeds[1..], id)
  }

  /** Since user names are unique, `getUser` returns THE user of that name. */
  lemma GetUserIsUnique(users: seq<User>, nextId: nat, u: User)
    requires UsersOk(users, nextId) && u in users
    ensures GetUser(users, u.name) == Some(u)
  {
  }

  /** Since feed URLs are unique, `getFeedByUrl` returns THE feed with that URL. */
  lemma GetFeedByUrlIsUnique(feeds: seq<Feed>, users: seq<User>, nextId: nat, f: Feed)
    requires FeedsOk(feeds, users, nextId) && f in feeds
    ensures GetFeedByUrl(feeds, f.url) == Some(f)
  {
  }

  // ---------------------------------------------------------------- follows

  /** The user has a follow row for the feed. */
  predicate IsFollowing(follows: seq<FeedFollow>, userId: Id, feedId: Id)
  {
    exists a :: a in follows && a.userId == userId && a.feedId == feedId
  }

  /** `getFeedFollowsForUser`: the names of the feeds the user follows, one per follow row. */
  function GetFeedFollowsForUser(follows: seq<FeedFollow>, feeds: seq<Feed>, userId: Id): (r: seq<string>)
    ensures |r| <= |follows|
    ensures forall n :: n in r ==> exists f :: f in feeds && f.name == n && IsFollowing(follows, userId, f.id)
  {
    if follows == [] then []
    else
      var rest := GetFeedFollowsForUser(follows[1..], feeds, userId);
      assert forall a :: a in follows[1..] ==> a in follows;
      if follows[0].userId != userId then rest
      else match FeedById(feeds, follows[0].feedId)
        case None => rest
        case Some(f) => [f.name] + rest
  }

  /** The follow rows of one user, in table order. */
  function FollowRowsOf(follows: seq<FeedFollow>, userId: Id): (r: seq<FeedFollow>)
    ensures forall a :: a in r <==> a in follows && a.userId == userId
  {
    if follows == [] then []
    else
      assert forall a :: a in follows <==> a == follows[0] || a in follows[1..];
      var rest := FollowRowsOf(follows[1..], userId);
      if follows[0].userId == userId then [follows[0]] + rest else rest
  }

  /** Under the foreign key on feed_follows.feed_id the inner join loses no follow row: one
      name per follow row of the user, in table order, each the name of the followed feed. */
  lemma {:induction false} FollowsAllListed(follows: seq<FeedFollow>, feeds: seq<Feed>, userId: Id)
    requires forall a :: a in follows ==> a.feedId in FeedIds(feeds)
    ensures |GetFeedFollowsForUser(follows, feeds, userId)| == |FollowRowsOf(follows, userId)|
    ensures forall k :: 0 <= k < |FollowRowsOf(follows, userId)| ==>
      GetFeedFollowsForUser(follows, feeds, userId)[k] == FeedById(feeds, FollowRowsOf(follows, userId)[k].feedId).value.name
  {
    if follows != [] {
      assert forall a :: a in follows[1..] ==> a in follows;
      FollowsAllListed(follows[1..], feeds, userId);
      var names, rest := GetFeedFollowsForUser(follows, feeds, userId), GetFeedFollowsForUser(follows[1..], feeds, userId);
      var rows, restRows := FollowRowsOf(follows, userId), FollowRowsOf(follows[1..], userId);
      if follows[0].userId == userId {
        assert follows[0] in follows;
        var f := FeedById(feeds, follows[0].feedId);
        assert f.Some?;
        assert forall k :: 0 <= k < |restRows| ==> FeedById(feeds, restRows[k].feedId).Some? by {
          forall k | 0 <= k < |restRows| ensures FeedById(feeds, restRows[k].feedId).Some? {
            assert restRows[k] in restRows;
          }
        }
        var nameOf := (a: FeedFollow) => if FeedById(feeds, a.feedId).Some? then FeedById(feeds, a.feedId).value.name else "";
        ListingCons(f.value.name, follows[0], rest, restRows, nameOf);
        assert names == [f.value.name] + rest;
        assert rows == [follows[0]] + restRows;
        forall k | 0 <= k < |rows| ensures names[k] == FeedById(feeds, rows[k].feedId).value.name {
          assert names[k] == nameOf(rows[k]);
        }
      } else {
        assert names == rest;
        assert rows == restRows;
      }
    }
  }

  /** One more row in front, with its name in front of the names. */
  lemma ListingCons<A>(name: string, a: A, names: seq<string>, rows: seq<A>, nameOf: A -> string)
    requires name == nameOf(a) && |names| == |rows|
    requires forall k :: 0 <= k < |rows| ==> names[k] == nameOf(rows[k])
    ensures forall k :: 0 <= k < |rows| + 1 ==> ([name] + names)[k] == nameOf(([a] + rows)[k])
  {
    var ns, rs := [name] + names, [a] + rows;
    forall k | 0 <= k < |rows| + 1 ensures ns[k] == nameOf(rs[k]) {
      if k == 0 {
        assert ns[0] == name && rs[0] == a;
      } else {
        assert ns[k] == names[k - 1] && rs[k] == rows[k - 1];
      }
    }
  }

  /** Deleting follow rows keeps the follows table consistent. */
  lemma FilterKeepsFollowsOk(follows: seq<FeedFollow>, users: seq<User>, feeds: seq<Feed>, nextId: nat,
                             keep: FeedFollow -> bool)
    requires FollowsOk(follows, users, feeds, nextId)
    ensures FollowsOk(Filter(follows, keep), users, feeds, nextId)
  {
    FilterNoDuplicates(follows, keep);
  }

  /** Row of `getAllFeeds`: a feed joined with the user who added it. */
  datatype FeedListing = FeedListing(name: string, url: string, userName: string)

  /** `getAllFeeds`: every feed with its owner's name (inner join on feeds.user_id). */
  function GetAllFeeds(feeds: seq<Feed>, users: seq<User>): (r: seq<FeedListing>)
    ensures |r| <= |feeds|
    ensures forall e :: e in r ==>
      exists f, u :: f in feeds && u in users && u.id == f.userId && e == FeedListing(f.name, f.url, u.name)
  {
    if feeds == [] then []
    else
      var rest := GetAllFeeds(feeds[1..], users);
      assert forall f :: f in feeds[1..] ==> f in feeds;
      match UserById(users, feeds[0].userId)
      case None => rest
      case Some(u) => [FeedListing(feeds[0].name, feeds[0].url, u.name)] + rest
  }

  /** Under the foreign key on feeds.user_id the inner join loses no feed: one row per feed, in order. */
  lemma {:induction false} AllFeedsListed(feeds: seq<Feed>, users: seq<User>)
    requires forall f :: f in feeds ==> f.userId in UserIds(users)
    ensures |GetAllFeeds(feeds, users)| == |feeds|
    ensures forall i :: 0 <= i < |feeds| ==>
      GetAllFeeds(feeds, users)[i].name == feeds[i].name && GetAllFeeds(feeds, users)[i].url == feeds[i].url
  {
    if feeds != [] {
      assert forall f :: f in feeds[1..] ==> f in feeds;
      AllFeedsListed(feeds[1..], users);
      assert feeds[0] in feeds;
    }
  }

  // ---------------------------------------------------------------- feed scheduling

  /** `a` sorts no later than `b` under `ORDER BY last_fetched_at ASC NULLS FIRST`. */
  predicate FetchedNoLater(a: Option<Timestamp>, b: Option<Timestamp>)
  {
    a.None? || (b.Some? && a.value <= b.value)
  }

  /** `getNextFeedToFetch`: the first feed under `last_fetched_at ASC NULLS FIRST LIMIT 1`.
      Nothing when there are no feeds; otherwise a feed that has never been fetched if
      there is one, else one fetched least recently. */
  function NextFeedToFetch(feeds: seq<Feed>): (r: Option<Feed>)
    ensures r.None? <==> feeds == []
    ensures r.Some? ==> r.value in feeds
    ensures r.Some? ==> forall f :: f in feeds ==> FetchedNoLater(r.value.lastFetchedAt, f.lastFetchedAt)
    ensures r.Some? && (exists f :: f in feeds && f.lastFetchedAt.None?) ==> r.value.lastFetchedAt.None?
  {
    if feeds == [] then None
    else
      assert forall f :: f in feeds <==> f == feeds[0] || f in feeds[1..];
      match NextFeedToFetch(feeds[1..])
      case None => Some(feeds[0])
      case Some(g) =>
        if FetchedNoLater(feeds[0].lastFetchedAt, g.lastFetchedAt) then Some(feeds[0]) else Some(g)
  }

  /** The row of `feeds[i]` after `markFeedFetched(id)` at time `now`. */
  function Stamped(f: Feed, now: Timestamp): Feed
  {
    f.(lastFetchedAt := Some(now), updatedAt := now)
  }

  /** `markFeedFetched`: `UPDATE feeds SET last_fetched_at = now, updated_at = now WHERE id = id`.
      The feed with that id gets both timestamps; every other feed, and every other
      column, keeps its value. */
  function StampFeed(feeds: seq<Feed>, id: Id, now: Timestamp): (r: seq<Feed>)
    ensures |r| == |feeds|
    ensures forall i :: 0 <= i < |r| && feeds[i].id == id ==>
      r[i].lastFetchedAt == Some(now) && r[i].updatedAt == now &&
      r[i] == feeds[i].(lastFetchedAt := r[i].lastFetchedAt, updatedAt := r[i].updatedAt)
    ensures forall i :: 0 <= i < |r| && feeds[i].id != id ==> r[i] == feeds[i]
  {
    if feeds == [] then []
    else [if feeds[0].id == id then Stamped(feeds[0], now) else feeds[0]] + StampFeed(feeds[1..], id, now)
  }

  /** Stamping an id that no feed has changes nothing. */
  lemma StampUnknownFeedIsNoOp(feeds: seq<Feed>, id: Id, now: Timestamp)
    requires id !in FeedIds(feeds)
    ensures StampFeed(feeds, id, now) == feeds
  {
    var r := StampFeed(feeds, id, now);
    forall i | 0 <= i < |feeds| ensures r[i] == feeds[i] {
      assert feeds[i] in feeds;
    }
  }

  /** Stamping keeps the feed table consistent: ids, URLs and owners are untouched. */
  lemma StampKeepsFeedsOk(feeds: seq<Feed>, users: seq<User>, nextId: nat, id: Id, now: Timestamp)
    requires FeedsOk(feeds, users, nextId)
    ensures FeedsOk(StampFeed(feeds, id, now), users, nextId)
    ensures FeedIds(StampFeed(feeds, id, now)) == FeedIds(feeds)
  {
    StampKeepsRowsDistinct(feeds, users, nextId, id, now);
    StampKeepsKeysUnique(feeds, users, nextId, id, now);
    StampKeepsReferences(feeds, users, nextId, id, now);
    StampKeepsFeedIds(feeds, id, now);
  }

  /** Stamping creates no duplicate row. */
  lemma StampKeepsRowsDistinct(feeds: seq<Feed>, users: seq<User>, nextId: nat, id: Id, now: Timestamp)
    requires FeedsOk(feeds, users, nextId)
    ensures NoDuplicates(StampFeed(feeds, id, now))
  {
    var r := StampFeed(feeds, id, now);
    forall i, j | 0 <= i < j < |r| ensures r[i] != r[j] {
      StampedSameKeys(feeds, users, nextId, id, now, i, j);
    }
  }

  /** Stamped rows that share an id or a URL are the same row. */
  lemma StampKeepsKeysUnique(feeds: seq<Feed>, users: seq<User>, nextId: nat, id: Id, now: Timestamp)
    requires FeedsOk(feeds, users, nextId)
    ensures var r := StampFeed(feeds, id, now);
      forall f, g :: f in r && g in r && (f.id == g.id || f.url == g.url) ==> f == g
  {
    StampedIndicesDistinct(feeds, users, nextId, id, now);
    StampedIdsUnique(StampFeed(feeds, id, now));
    StampedUrlsUnique(StampFeed(feeds, id, now));
  }

  /** Rows at different positions with different ids: rows sharing an id are the same row. */
  lemma StampedIdsUnique(r: seq<Feed>)
    requires forall i, j :: 0 <= i < |r| && 0 <= j < |r| && i != j ==> r[i].id != r[j].id
    ensures forall f, g :: f in r && g in r && f.id == g.id ==> f == g
  {
    forall f, g | f in r && g in r && f.id == g.id ensures f == g {
      var i :| 0 <= i < |r| && r[i] == f;
      var j :| 0 <= j < |r| && r[j] == g;
    }
  }

  /** Rows at different positions with different URLs: rows sharing a URL are the same row. */
  lemma StampedUrlsUnique(r: seq<Feed>)
    requires forall i, j :: 0 <= i < |r| && 0 <= j < |r| && i != j ==> r[i].url != r[j].url
    ensures forall f, g :: f in r && g in r && f.url == g.url ==> f == g
  {
    forall f, g | f in r && g in r && f.url == g.url ensures f == g {
      var i :| 0 <= i < |r| && r[i] == f;
      var j :| 0 <= j < |r| && r[j] == g;
    }
  }

  /** Stamped rows at different positions differ in both id and URL. */
  lemma StampedIndicesDistinct(feeds: seq<Feed>, users: seq<User>, nextId: nat, id: Id, now: Timestamp)
    requires FeedsOk(feeds, users, nextId)
    ensures var r := StampFeed(feeds, id, now);
      forall i, j :: 0 <= i < |r| && 0 <= j < |r| && i != j ==> r[i].id != r[j].id && r[i].url != r[j].url
  {
    var r := StampFeed(feeds, id, now);
    forall i, j | 0 <= i < |r| && 0 <= j < |r| && i != j ensures r[i].id != r[j].id && r[i].url != r[j].url {
      StampedSameKeys(feeds, users, nextId, id, now, i, j);
    }
  }

  /** Stamped rows keep their ids below the counter and their owners. */
  lemma StampKeepsReferences(feeds: seq<Feed>, users: seq<User>, nextId: nat, id: Id, now: Timestamp)
    requires FeedsOk(feeds, users, nextId)
    ensures forall g :: g in StampFeed(feeds, id, now) ==> g.id < nextId && g.userId in UserIds(users)
  {
    var r := StampFeed(feeds, id, now);
    forall g | g in r ensures g.id < nextId && g.userId in UserIds(users) {
      var i :| 0 <= i < |r| && r[i] == g;
      assert feeds[i] in feeds;
    }
  }

  /** Two stamped rows that share an id or a URL are the same row. */
  lemma StampedSameKeys(feeds: seq<Feed>, users: seq<User>, nextId: nat, id: Id, now: Timestamp, i: nat, j: nat)
    requires FeedsOk(feeds, users, nextId) && i < |feeds| && j < |feeds|
    ensures var r := StampFeed(feeds, id, now); (r[i].id == r[j].id || r[i].url == r[j].url) ==> i == j
  {
    var r := StampFeed(feeds, id, now);
    assert feeds[i] in feeds && feeds[j] in feeds;
    assert r[i].id == feeds[i].id && r[j].id == feeds[j].id;
    assert r[i].url == feeds[i].url && r[j].url == feeds[j].url;
    assert i < j ==> feeds[i] != feeds[j];
    assert j < i ==> feeds[j] != feeds[i];
  }

  lemma StampKeepsFeedIds(feeds: seq<Feed>, id: Id, now: Timestamp)
    ensures FeedIds(StampFeed(feeds, id, now)) == FeedIds(feeds)
  {
    var r := StampFeed(feeds, id, now);
    forall x | x in FeedIds(feeds) ensures x in FeedIds(r) {
      var f :| f in feeds && f.id == x;
      var i :| 0 <= i < |feeds| && feeds[i] == f;
      assert r[i] in r;
    }
    forall x | x in FeedIds(r) ensures x in FeedIds(feeds) {
      var g :| g in r && g.id == x;
      var i :| 0 <= i < |r| && r[i] == g;
      assert feeds[i] in feeds;
    }
  }

  /** A feed stamped with a time later than every recorded fetch goes to the back of the
      queue: when another feed exists, the next selection is a different feed. */
  lemma StampedFeedRotates(feeds: seq<Feed>, users: seq<User>, nextId: nat, now: Timestamp)
    requires FeedsOk(feeds, users, nextId) && |feeds| >= 2
    requires forall f :: f in feeds && f.lastFetchedAt.Some? ==> f.lastFetchedAt.value < now
    ensures NextFeedToFetch(StampFeed(feeds, NextFeedToFetch(feeds).value.id, now)).value.id
            != NextFeedToFetch(feeds).value.id
  {
    var sel := NextFeedToFetch(feeds).value;
    var r := StampFeed(feeds, sel.id, now);
    var next := NextFeedToFetch(r).value;
    // some other feed is still earlier than `now`
    var k := if feeds[0] != sel then 0 else 1;
    assert feeds[0] != feeds[1];
    assert feeds[k] in feeds && sel in feeds;
    assert feeds[k].id != sel.id;
    assert r[k] == feeds[k];
    assert r[k] in r;
    assert FetchedNoLater(next.lastFetchedAt, r[k].lastFetchedAt);
    var j :| 0 <= j < |r| && r[j] == next;
    assert feeds[j] in feeds;
    assert feeds[j].id == sel.id ==> next.lastFetchedAt == Some(now);
  }

  // ---------------------------------------------------------------- posts

  /** Some post already has this URL. */
  predicate UrlTaken(posts: seq<Post>, url: string)
  {
    exists p :: p in posts && p.url == url
  }

  /** The values `createPost` sends. The TypeScript types are not enforced at run time:
      a missing title or link arrives as `undefined`, an unparseable date as an Invalid Date. */
  datatype PostArgs = PostArgs(title: Option<string>, url: Option<string>, description: Option<string>,
                               publishedAt: Option<Timestamp>, feedId: Id)

  /** The posts table and the id counter after one insert, and what the insert returned. */
  datatype Inserted = Inserted(posts: seq<Post>, nextId: nat, outcome: Result<Option<Post>>)

  /** `createPost`: `INSERT INTO posts ... ON CONFLICT DO NOTHING RETURNING *`.
      An Invalid Date cannot be serialised and throws before the statement is sent; a
      missing title or URL violates NOT NULL; a URL already present is a conflict, which
      inserts nothing and returns no row; an unknown feed violates the foreign key. */
  function InsertPost(posts: seq<Post>, feedIds: set<Id>, nextId: nat, a: PostArgs, now: Timestamp): (r: Inserted)
    ensures r.outcome.Err? <==>
      a.publishedAt.None? || a.title.None? || a.url.None? || (!UrlTaken(posts, a.url.value) && a.feedId !in feedIds)
    ensures r.outcome == Ok(None) <==>
      a.publishedAt.Some? && a.title.Some? && a.url.Some? && UrlTaken(posts, a.url.value)
    ensures r.outcome.Ok? && r.outcome.value.Some? ==>
      r.posts == posts + [r.outcome.value.value] && r.nextId == nextId + 1 &&
      r.outcome.value.value == Post(nextId, now, now, a.title.value, a.url.value, a.description, a.publishedAt, a.feedId)
    ensures !(r.outcome.Ok? && r.outcome.value.Some?) ==> r.posts == posts && r.nextId == nextId
  {
    if a.publishedAt.None? then Inserted(posts, nextId, Err(InvalidTimestamp))
    else if a.title.None? || a.url.None? then Inserted(posts, nextId, Err(NotNullViolation))
    else if UrlTaken(posts, a.url.value) then Inserted(posts, nextId, Ok(None))
    else if a.feedId !in feedIds then Inserted(posts, nextId, Err(ForeignKeyViolation))
    else
      var p := Post(nextId, now, now, a.title.value, a.url.value, a.description, a.publishedAt, a.feedId);
      Inserted(posts + [p], nextId + 1, Ok(Some(p)))
  }

  /** An insert keeps the posts table consistent: the URL stays unique, the id is fresh. */
  lemma InsertPostKeepsPostsOk(posts: seq<Post>, feeds: seq<Feed>, nextId: nat, a: PostArgs, now: Timestamp)
    requires PostsOk(posts, feeds, nextId)
    ensures var r := InsertPost(posts, FeedIds(feeds), nextId, a, now); PostsOk(r.posts, feeds, r.nextId)
  {
    var r := InsertPost(posts, FeedIds(feeds), nextId, a, now);
    if r.outcome.Ok? && r.outcome.value.Some? {
      var p := r.outcome.value.value;
      assert forall q :: q in posts ==> q.id != p.id && q.url != p.url;
      AppendNoDuplicates(posts, p);
      assert forall q :: q in r.posts <==> q in posts || q == p;
    }
  }

  /** Inserting the same post twice: the second insert is a conflict that changes nothing,
      so the URL ends up on exactly one post. */
  lemma InsertPostTwice(posts: seq<Post>, feeds: seq<Feed>, nextId: nat, a: PostArgs, now: Timestamp, later: Timestamp)
    requires PostsOk(posts, feeds, nextId)
    requires a.publishedAt.Some? && a.title.Some? && a.url.Some?
    ensures var r1 := InsertPost(posts, FeedIds(feeds), nextId, a, now);
            var r2 := InsertPost(r1.posts, FeedIds(feeds), r1.nextId, a, later);
            r1.outcome.Ok? ==>
              && r2.outcome == Ok(None) && r2.posts == r1.posts && r2.nextId == r1.nextId
              && (exists p :: p in r2.posts && p.url == a.url.value)
              && (forall p, q :: p in r2.posts && q in r2.posts && p.url == a.url.value && q.url == a.url.value ==> p == q)
  {
    var r1 := InsertPost(posts, FeedIds(feeds), nextId, a, now);
    InsertPostKeepsPostsOk(posts, feeds, nextId, a, now);
    if r1.outcome.Ok? && r1.outcome.value.Some? {
      var p := r1.outcome.value.value;
      assert p in r1.posts;
    }
  }

  // ---------------------------------------------------------------- browsing

  /** Row of `getPostsForUser`. */
  datatype PostView = PostView(title: string, url: string, publishedAt: Option<Timestamp>, feedName: string)

  /** The join `posts ⋈ feeds ⋈ feed_follows WHERE feed_follows.user_id = userId`, before ordering. */
  function FollowedPosts(posts: seq<Post>, feeds: seq<Feed>, follows: seq<FeedFollow>, userId: Id): (r: seq<PostView>)
    ensures |r| <= |posts|
    ensures forall v :: v in r ==>
      exists p, f :: p in posts && f in feeds && f.id == p.feedId && IsFollowing(follows, userId, f.id) &&
                     v == PostView(p.title, p.url, p.publishedAt, f.name)
  {
    if posts == [] then []
    else
      var rest := FollowedPosts(posts[1..], feeds, follows, userId);
      assert forall p :: p in posts[1..] ==> p in posts;
      var p := posts[0];
      match FeedById(feeds, p.feedId)
      case None => rest
      case Some(f) =>
        if IsFollowing(follows, userId, f.id) then [PostView(p.title, p.url, p.publishedAt, f.name)] + rest
        else rest
  }

  /** Every post of a followed feed is in the join. */
  lemma {:induction false} FollowedPostsComplete(posts: seq<Post>, feeds: seq<Feed>, follows: seq<FeedFollow>,
                                                 userId: Id, p: Post, f: Feed)
    requires p in posts && FeedById(feeds, p.feedId) == Some(f) && IsFollowing(follows, userId, p.feedId)
    ensures PostView(p.title, p.url, p.publishedAt, f.name) in FollowedPosts(posts, feeds, follows, userId)
  {
    if posts[0] != p {
      assert p in posts[1..];
      FollowedPostsComplete(posts[1..], feeds, follows, userId, p, f);
    }
  }

  /** `a` sorts no later than `b` under `ORDER BY published_at DESC`; PostgreSQL puts NULLs
      first in descending order. */
  predicate PublishedNoEarlier(a: Option<Timestamp>, b: Option<Timestamp>)
  {
    a.None? || (b.Some? && a.value >= b.value)
  }

  predicate NewestFirst(s: seq<PostView>)
  {
    forall i, j :: 0 <= i < j < |s| ==> PublishedNoEarlier(s[i].publishedAt, s[j].publishedAt)
  }

  function InsertNewestFirst(v: PostView, s: seq<PostView>): (r: seq<PostView>)
    ensures multiset(r) == multiset(s) + multiset{v}
  {
    if s == [] then [v]
    else if PublishedNoEarlier(v.publishedAt, s[0].publishedAt) then [v] + s
    else
      assert s == [s[0]] + s[1..];
      [s[0]] + InsertNewestFirst(v, s[1..])
  }

  lemma {:induction false} InsertNewestFirstSorted(v: PostView, s: seq<PostView>)
    requires NewestFirst(s)
    ensures NewestFirst(InsertNewestFirst(v, s))
  {
    if s == [] {
    } else if PublishedNoEarlier(v.publishedAt, s[0].publishedAt) {
      var r := [v] + s;
      assert InsertNewestFirst(v, s) == r;
      forall i, j | 0 <= i < j < |r| ensures PublishedNoEarlier(r[i].publishedAt, r[j].publishedAt) {
        assert r[j] == s[j - 1];
        if i > 0 {
          assert r[i] == s[i - 1];
        } else if j > 1 {
          assert PublishedNoEarlier(s[0].publishedAt, s[j - 1].publishedAt);
        }
      }
    } else {
      var rest := InsertNewestFirst(v, s[1..]);
      InsertNewestFirstSorted(v, s[1..]);
      HeadPrecedesRest(v, s);
      var r := [s[0]] + rest;
      assert InsertNewestFirst(v, s) == r;
      forall i, j | 0 <= i < j < |r| ensures PublishedNoEarlier(r[i].publishedAt, r[j].publishedAt) {
        assert r[j] == rest[j - 1];
        if i > 0 {
          assert r[i] == rest[i - 1];
        } else {
          assert r[i] == s[0] && 0 <= j - 1 < |rest|;
          assert PublishedNoEarlier(s[0].publishedAt, rest[j - 1].publishedAt);
        }
      }
    }
  }

  /** When `v` goes past the head of a sorted list, the head ranks no later than anything
      in the list `v` is inserted into. */
  lemma HeadPrecedesRest(v: PostView, s: seq<PostView>)
    requires NewestFirst(s) && s != [] && !PublishedNoEarlier(v.publishedAt, s[0].publishedAt)
    ensures forall k :: 0 <= k < |InsertNewestFirst(v, s[1..])| ==>
      PublishedNoEarlier(s[0].publishedAt, InsertNewestFirst(v, s[1..])[k].publishedAt)
  {
    var rest := InsertNewestFirst(v, s[1..]);
    forall k | 0 <= k < |rest| ensures PublishedNoEarlier(s[0].publishedAt, rest[k].publishedAt) {
      var x := rest[k];
      assert x in multiset(rest);
      if x != v {
        assert x in multiset(s[1..]);
        var m :| 1 <= m < |s| && s[m] == x;
      }
    }
  }


  /** The rows in `ORDER BY published_at DESC` order (insertion sort). */
  function SortNewestFirst(s: seq<PostView>): (r: seq<PostView>)
    ensures NewestFirst(r)
    ensures multiset(r) == multiset(s)
  {
    if s == [] then []
    else
      assert s == [s[0]] + s[1..];
      var rest := SortNewestFirst(s[1..]);
      InsertNewestFirstSorted(s[0], rest);
      InsertNewestFirst(s[0], rest)
  }

  /** The first `k` rows of a sorted sequence rank no later than every row left out. */
  lemma TakeIsTop(s: seq<PostView>, k: nat)
    requires NewestFirst(s) && k <= |s|
    ensures forall v, w :: v in s && v !in s[..k] && w in s[..k] ==> PublishedNoEarlier(w.publishedAt, v.publishedAt)
  {
    forall v, w | v in s && v !in s[..k] && w in s[..k]
      ensures PublishedNoEarlier(w.publishedAt, v.publishedAt)
    {
      var j :| 0 <= j < |s| && s[j] == v;
      var i :| 0 <= i < k && s[..k][i] == w;
      assert forall t :: 0 <= t < k ==> s[t] in s[..k];
      assert s[i] == w;
    }
  }

  /** The first `k` rows of a sorted permutation of `candidates`: `k` rows, all candidates,
      sorted, and none of the candidates left out is newer than one kept. */
  lemma SortedPrefixIsTop(candidates: seq<PostView>, sorted: seq<PostView>, k: nat)
    requires NewestFirst(sorted) && multiset(sorted) == multiset(candidates) && k <= |sorted|
    ensures |sorted[..k]| == k && k <= |candidates|
    ensures multiset(sorted[..k]) <= multiset(candidates)
    ensures forall v :: v in sorted[..k] ==> v in candidates
    ensures NewestFirst(sorted[..k])
    ensures forall v, w :: v in candidates && v !in sorted[..k] && w in sorted[..k] ==>
      PublishedNoEarlier(w.publishedAt, v.publishedAt)
  {
    SameMultisetSameRows(sorted, candidates);
    TakeIsTop(sorted, k);
    PrefixRows(sorted, k);
  }

  /** Sequences with the same multiset have the same length and the same rows. */
  lemma SameMultisetSameRows(a: seq<PostView>, b: seq<PostView>)
    requires multiset(a) == multiset(b)
    ensures |a| == |b|
    ensures forall v :: v in a <==> v in b
  {
    assert |a| == |multiset(a)| == |multiset(b)| == |b|;
    forall v ensures v in a <==> v in b {
      assert v in a <==> v in multiset(a);
      assert v in b <==> v in multiset(b);
    }
  }

  /** A prefix keeps a sub-multiset of the rows, and its order. */
  lemma PrefixRows(s: seq<PostView>, k: nat)
    requires k <= |s|
    ensures multiset(s[..k]) <= multiset(s)
    ensures forall v :: v in s[..k] ==> v in s
    ensures NewestFirst(s) ==> NewestFirst(s[..k])
  {
    assert s == s[..k] + s[k..];
    assert multiset(s) == multiset(s[..k]) + multiset(s[k..]);
  }

  /** `limit` when `getPostsForUser` is called without one. */
  const DefaultPostsLimit: nat := 2

  /** `getPostsForUser`: at most `limit` (default 2) posts of feeds the user follows, newest
      first, and no post left out is newer than one returned. */
  function GetPostsForUser(posts: seq<Post>, feeds: seq<Feed>, follows: seq<FeedFollow>,
                           userId: Id, limit: Option<nat>): (r: seq<PostView>)
    ensures var n := if limit.Some? then limit.value else DefaultPostsLimit;
            |r| == Min(n, |FollowedPosts(posts, feeds, follows, userId)|)
    ensures multiset(r) <= multiset(FollowedPosts(posts, feeds, follows, userId))
    ensures forall v :: v in r ==> v in FollowedPosts(posts, feeds, follows, userId)
    ensures NewestFirst(r)
    ensures forall v, w :: v in FollowedPosts(posts, feeds, follows, userId) && v !in r && w in r ==>
      PublishedNoEarlier(w.publishedAt, v.publishedAt)
  {
    var n := if limit.Some? then limit.value else DefaultPostsLimit;
    var candidates := FollowedPosts(posts, feeds, follows, userId);
    var sorted := SortNewestFirst(candidates);
    assert |sorted| == |multiset(sorted)| == |multiset(candidates)| == |candidates|;
    var k := Min(n, |sorted|);
    SortedPrefixIsTop(candidates, sorted, k);
    sorted[..k]
  }

  // ---------------------------------------------------------------- the store

  /** Result of `createFeedFollow`: the follower's and the feed's names. */
  datatype FollowNames = FollowNames(userName: string, feedName: string)

  /** The database as the queries of src/db/queries.ts see it. `connected` stands for the
      connection: while it is down every statement throws. */
  class Store {
    var users: seq<User>
    var feeds: seq<Feed>
    var follows: seq<FeedFollow>
    var posts: seq<Post>
    var nextId: nat
    var connected: bool

    ghost predicate Valid()
      reads this
    {
      Consistent(users, feeds, follows, posts, nextId)
    }

    constructor (connected: bool)
      ensures Valid() && this.connected == connected
      ensures users == [] && feeds == [] && follows == [] && posts == []
    {
      users, feeds, follows, posts := [], [], [], [];
      nextId := 0;
      this.connected := connected;
    }

    /** `createUser`: inserts a user; a name already taken violates `users.name UNIQUE`. */
    method CreateUser(name: string, now: Timestamp) returns (r: Result<User>)
      requires Valid()
      modifies this
      ensures Valid()
      ensures feeds == old(feeds) && follows == old(follows) && posts == old(posts) && connected == old(connected)
      ensures r.Err? ==> users == old(users) && nextId == old(nextId)
      ensures !connected ==> r == Err(StoreUnavailable)
      ensures connected && GetUser(old(users), name).Some? ==> r == Err(UniqueViolation)
      ensures connected && GetUser(old(users), name).None? ==>
        r == Ok(User(old(nextId), now, now, name)) && users == old(users) + [r.value] && nextId == old(nextId) + 1
    {
      if !connected {
        return Err(StoreUnavailable);
      }
      if GetUser(users, name).Some? {
        return Err(UniqueViolation);
      }
      var u := User(nextId, now, now, name);
      UserIdsAppend(users, u);
      AppendNoDuplicates(users, u);
      users := users + [u];
      nextId := nextId + 1;
      r := Ok(u);
    }

    /** `deleteAllUsers`: `DELETE FROM users`; the ON DELETE CASCADE references then empty
        every other table. */
    method DeleteAllUsers() returns (r: Result<()>)
      requires Valid()
      modifies this
      ensures Valid() && connected == old(connected) && nextId == old(nextId)
      ensures !connected ==> r == Err(StoreUnavailable) && users == old(users) && feeds == old(feeds) &&
                             follows == old(follows) && posts == old(posts)
      ensures connected ==> r == Ok(()) && users == [] && feeds == [] && follows == [] && posts == []
    {
      if !connected {
        return Err(StoreUnavailable);
      }
      // the cascades leave nothing of any table (`DeleteAllUsersEmptiesTables`)
      EmptyTablesConsistent(nextId);
      users, feeds, follows, posts := [], [], [], [];
      r := Ok(());
    }

    /** `createFeed`: inserts a feed that has never been fetched. A URL already present
        violates `feeds.url UNIQUE`; an unknown owner violates the foreign key. */
    method CreateFeed(name: string, url: string, userId: Id, now: Timestamp) returns (r: Result<Feed>)
      requires Valid()
      modifies this
      ensures Valid()
      ensures users == old(users) && follows == old(follows) && posts == old(posts) && connected == old(connected)
      ensures r.Err? ==> feeds == old(feeds) && nextId == old(nextId)
      ensures !connected ==> r == Err(StoreUnavailable)
      ensures connected && GetFeedByUrl(old(feeds), url).Some? ==> r == Err(UniqueViolation)
      ensures connected && GetFeedByUrl(old(feeds), url).None? && userId !in UserIds(users) ==> r == Err(ForeignKeyViolation)
      ensures connected && GetFeedByUrl(old(feeds), url).None? && userId in UserIds(users) ==>
        r == Ok(Feed(old(nextId), now, now, name, url, userId, None)) &&
        feeds == old(feeds) + [r.value] && nextId == old(nextId) + 1
    {
      if !connected {
        return Err(StoreUnavailable);
      }
      if GetFeedByUrl(feeds, url).Some? {
        return Err(UniqueViolation);
      }
      if userId !in UserIds(users) {
        return Err(ForeignKeyViolation);
      }
      var f := Feed(nextId, now, now, name, url, userId, None);
      FeedIdsAppend(feeds, f);
      AppendNoDuplicates(feeds, f);
      feeds := feeds + [f];
      nextId := nextId + 1;
      r := Ok(f);
    }

    /** `createFeedFollow`: inserts a follow row and reads back the user's and the feed's
        names. A pair already present violates the UNIQUE (user_id, feed_id) constraint;
        an unknown user or feed violates a foreign key. */
    method CreateFeedFollow(userId: Id, feedId: Id, now: Timestamp) returns (r: Result<FollowNames>)
      requires Valid()
      modifies this
      ensures Valid()
      ensures users == old(users) && feeds == old(feeds) && posts == old(posts) && connected == old(connected)
      ensures r.Err? ==> follows == old(follows) && nextId == old(nextId)
      ensures !connected ==> r == Err(StoreUnavailable)
      ensures connected && IsFollowing(old(follows), userId, feedId) ==> r == Err(UniqueViolation)
      ensures connected && !IsFollowing(old(follows), userId, feedId) && (userId !in UserIds(users) || feedId !in FeedIds(feeds)) ==>
        r == Err(ForeignKeyViolation)
      ensures connected && !IsFollowing(old(follows), userId, feedId) && userId in UserIds(users) && feedId in FeedIds(feeds) ==>
        r.Ok? && follows == old(follows) + [FeedFollow(old(nextId), now, now, userId, feedId)] && nextId == old(nextId) + 1
      ensures r.Ok? ==> (exists u :: u in users && u.id == userId && u.name == r.value.userName) &&
                        (exists f :: f in feeds && f.id == feedId && f.name == r.value.feedName)
    {
      if !connected {
        return Err(StoreUnavailable);
      }
      if IsFollowing(follows, userId, feedId) {
        return Err(UniqueViolation);
      }
      if userId !in UserIds(users) || feedId !in FeedIds(feeds) {
        return Err(ForeignKeyViolation);
      }
      var a := FeedFollow(nextId, now, now, userId, feedId);
      AppendNoDuplicates(follows, a);
      assert forall b :: b in follows + [a] <==> b in follows || b == a;
      follows := follows + [a];
      nextId := nextId + 1;
      var u := UserById(users, userId).value;
      var f := FeedById(feeds, feedId).value;
      r := Ok(FollowNames(u.name, f.name));
    }

    /** `deleteFeedFollow`: deletes the row for this (user, feed) pair and no other. */
    method DeleteFeedFollow(userId: Id, feedId: Id) returns (r: Result<()>)
      requires Valid()
      modifies this
      ensures Valid()
      ensures users == old(users) && feeds == old(feeds) && posts == old(posts) && nextId == old(nextId) && connected == old(connected)
      ensures !connected ==> r == Err(StoreUnavailable) && follows == old(follows)
      ensures connected ==> r == Ok(())
      ensures connected ==> forall a :: a in follows <==> a in old(follows) && !(a.userId == userId && a.feedId == feedId)
      ensures !IsFollowing(follows, userId, feedId) || !connected
    {
      if !connected {
        return Err(StoreUnavailable);
      }
      var keep := (a: FeedFollow) => !(a.userId == userId && a.feedId == feedId);
      FilterKeepsFollowsOk(follows, users, feeds, nextId, keep);
      follows := Filter(follows, keep);
      r := Ok(());
    }

    /** `markFeedFetched`: stamps `last_fetched_at` and `updated_at` of the feed with this id. */
    method MarkFeedFetched(feedId: Id, now: Timestamp) returns (r: Result<()>)
      requires Valid()
      modifies this
      ensures Valid()
      ensures users == old(users) && follows == old(follows) && posts == old(posts) && nextId == old(nextId) && connected == old(connected)
      ensures !connected ==> r == Err(StoreUnavailable) && feeds == old(feeds)
      ensures connected ==> r == Ok(()) && feeds == StampFeed(old(feeds), feedId, now)
    {
      if !connected {
        return Err(StoreUnavailable);
      }
      StampKeepsFeedsOk(feeds, users, nextId, feedId, now);
      feeds := StampFeed(feeds, feedId, now);
      r := Ok(());
    }

    /** `createPost`: insert-if-URL-absent, as `InsertPost` describes. */
    method CreatePost(a: PostArgs, now: Timestamp) returns (r: Result<Option<Post>>)
      requires Valid()
      modifies this
      ensures Valid()
      ensures users == old(users) && feeds == old(feeds) && follows == old(follows) && connected == old(connected)
      ensures !connected ==> r == Err(StoreUnavailable) && posts == old(posts) && nextId == old(nextId)
      ensures connected ==>
        var ins := InsertPost(old(posts), FeedIds(feeds), old(nextId), a, now);
        r == ins.outcome && posts == ins.posts && nextId == ins.nextId
    {
      if !connected {
        return Err(StoreUnavailable);
      }
      var ins := InsertPost(posts, FeedIds(feeds), nextId, a, now);
      InsertPostKeepsPostsOk(posts, feeds, nextId, a, now);
      posts, nextId := ins.posts, ins.nextId;
      r := ins.outcome;
    }
  }
}
