/** The four tables of the database (src/db/schema.ts) as rows, and the
    constraints the schema declares on them as predicates over in-memory tables.
    A table is a sequence of rows in insertion order. */
module Schema {
  import opened Common

  datatype User = User(id: Id, createdAt: Timestamp, updatedAt: Timestamp, name: string)

  /** `lastFetchedAt` is nullable and has no default: a new feed has never been fetched. */
  datatype Feed = Feed(id: Id, createdAt: Timestamp, updatedAt: Timestamp,
                       name: string, url: string, userId: Id,
                       lastFetchedAt: Option<Timestamp>)

  datatype FeedFollow = FeedFollow(id: Id, createdAt: Timestamp, updatedAt: Timestamp,
                                   userId: Id, feedId: Id)

  /** `description` and `publishedAt` are the two nullable columns of a post. */
  datatype Post = Post(id: Id, createdAt: Timestamp, updatedAt: Timestamp,
                       title: string, url: string, description: Option<string>,
                       publishedAt: Option<Timestamp>, feedId: Id)

  function UserIds(users: seq<User>): set<Id>
  {
    set u | u in users :: u.id
  }

  function FeedIds(feeds: seq<Feed>): set<Id>
  {
    set f | f in feeds :: f.id
  }

  /** No row occurs twice in a table. */
  predicate NoDuplicates<T(==)>(s: seq<T>)
  {
    forall i, j :: 0 <= i < j < |s| ==> s[i] != s[j]
  }

  /** users: primary key `id`, `name` UNIQUE; every id was handed out before `nextId`. */
  predicate UsersOk(users: seq<User>, nextId: nat)
  {
    && NoDuplicates(users)
    && (forall u, v :: u in users && v in users && u.id == v.id ==> u == v)
    && (forall u, v :: u in users && v in users && u.name == v.name ==> u == v)
    && (forall u :: u in users ==> u.id < nextId)
  }

  /** feeds: primary key `id`, `url` UNIQUE, `user_id` references users. */
  predicate FeedsOk(feeds: seq<Feed>, users: seq<User>, nextId: nat)
  {
    && NoDuplicates(feeds)
    && (forall f, g :: f in feeds && g in feeds && f.id == g.id ==> f == g)
    && (forall f, g :: f in feeds && g in feeds && f.url == g.url ==> f == g)
    && (forall f :: f in feeds ==> f.id < nextId && f.userId in UserIds(users))
  }

  /** feed_follows: primary key `id`, the pair (user_id, feed_id) UNIQUE, both reference their tables. */
  predicate FollowsOk(follows: seq<FeedFollow>, users: seq<User>, feeds: seq<Feed>, nextId: nat)
  {
    && NoDuplicates(follows)
    && (forall a, b :: a in follows && b in follows && a.id == b.id ==> a == b)
    && (forall a, b :: a in follows && b in follows && a.userId == b.userId && a.feedId == b.feedId ==> a == b)
    && (forall a :: a in follows ==> a.id < nextId && a.userId in UserIds(users) && a.feedId in FeedIds(feeds))
  }

  /** posts: primary key `id`, `url` UNIQUE, `feed_id` references feeds. */
  predicate PostsOk(posts: seq<Post>, feeds: seq<Feed>, nextId: nat)
  {
    && NoDuplicates(posts)
    && (forall p, q :: p in posts && q in posts && p.id == q.id ==> p == q)
    && (forall p, q :: p in posts && q in posts && p.url == q.url ==> p == q)
    && (forall p :: p in posts ==> p.id < nextId && p.feedId in FeedIds(feeds))
  }

  /** Every constraint of the schema holds. */
  predicate Consistent(users: seq<User>, feeds: seq<Feed>, follows: seq<FeedFollow>,
                       posts: seq<Post>, nextId: nat)
  {
    && UsersOk(users, nextId)
    && FeedsOk(feeds, users, nextId)
    && FollowsOk(follows, users, feeds, nextId)
    && PostsOk(posts, feeds, nextId)
  }

  /** The rows of `s` that `keep` accepts, each as often as it occurs in `s`. */
  function Filter<T(!new)>(s: seq<T>, keep: T -> bool): (r: seq<T>)
    ensures |r| <= |s|
    ensures forall x :: x in r <==> x in s && keep(x)
    ensures (forall x :: x in s ==> !keep(x)) ==> r == []
    ensures multiset(r) <= multiset(s)
    ensures forall x :: x in s && keep(x) ==> multiset(r)[x] == multiset(s)[x]
  {
    if s == [] then []
    else
      assert s == [s[0]] + s[1..];
      (if keep(s[0]) then [s[0]] else []) + Filter(s[1..], keep)
  }

  lemma {:induction false} FilterNoDuplicates<T(!new)>(s: seq<T>, keep: T -> bool)
    requires NoDuplicates(s)
    ensures NoDuplicates(Filter(s, keep))
  {
    if s != [] {
      FilterNoDuplicates(s[1..], keep);
      var rest := Filter(s[1..], keep);
      assert forall x :: x in rest ==> x in s[1..];
      forall k | 0 <= k < |s[1..]| ensures s[1..][k] != s[0] {
        assert s[1..][k] == s[k + 1];
      }
    }
  }

  lemma AppendNoDuplicates<T>(s: seq<T>, x: T)
    requires NoDuplicates(s) && x !in s
    ensures NoDuplicates(s + [x])
  {
    var t := s + [x];
    forall i, j | 0 <= i < j < |t| ensures t[i] != t[j] {
      if j == |s| {
        assert t[i] in s;
      }
    }
  }

  lemma UserIdsAppend(users: seq<User>, u: User)
    ensures UserIds(users + [u]) == UserIds(users) + {u.id}
  {
    assert forall v :: v in users + [u] <==> v in users || v == u;
  }

  lemma FeedIdsAppend(feeds: seq<Feed>, f: Feed)
    ensures FeedIds(feeds + [f]) == FeedIds(feeds) + {f.id}
  {
    assert forall g :: g in feeds + [f] <==> g in feeds || g == f;
  }

  /** Empty tables satisfy every constraint. */
  lemma EmptyTablesConsistent(nextId: nat)
    ensures Consistent([], [], [], [], nextId)
  {
  }

  /** The tables as a whole, as a cascading delete leaves them. */
  datatype Tables = Tables(users: seq<User>, feeds: seq<Feed>, follows: seq<FeedFollow>, posts: seq<Post>)

  /** Deleting the users whose ids are in `gone`: feeds.user_id and feed_follows.user_id
      cascade, so their feeds and follows go; feed_follows.feed_id and posts.feed_id
      cascade in turn, so the follows and posts of those feeds go too. */
  function DeleteUsersCascade(users: seq<User>, feeds: seq<Feed>, follows: seq<FeedFollow>,
                              posts: seq<Post>, gone: set<Id>): (r: Tables)
    ensures forall u :: u in r.users <==> u in users && u.id !in gone
    ensures forall f :: f in r.feeds <==> f in feeds && f.userId !in gone
    ensures forall a :: a in r.follows <==>
      a in follows && a.userId !in gone && a.feedId !in FeedIds(feeds) - FeedIds(r.feeds)
    ensures forall p :: p in r.posts <==> p in posts && p.feedId !in FeedIds(feeds) - FeedIds(r.feeds)
  {
    var keptFeeds := Filter(feeds, (f: Feed) => f.userId !in gone);
    var goneFeeds := FeedIds(feeds) - FeedIds(keptFeeds);
    Tables(Filter(users, (u: User) => u.id !in gone),
           keptFeeds,
           Filter(follows, (a: FeedFollow) => a.userId !in gone && a.feedId !in goneFeeds),
           Filter(posts, (p: Post) => p.feedId !in goneFeeds))
  }

  /** Deleting every user empties every table: each feed belongs to some user, and every
      follow and post hangs off a feed. */
  lemma DeleteAllUsersEmptiesTables(users: seq<User>, feeds: seq<Feed>, follows: seq<FeedFollow>,
                                    posts: seq<Post>, nextId: nat)
    requires Consistent(users, feeds, follows, posts, nextId)
    ensures DeleteUsersCascade(users, feeds, follows, posts, UserIds(users)) == Tables([], [], [], [])
  {
    var gone := UserIds(users);
    var keptFeeds := Filter(feeds, (f: Feed) => f.userId !in gone);
    assert keptFeeds == [];
    var goneFeeds := FeedIds(feeds) - FeedIds(keptFeeds);
    assert goneFeeds == FeedIds(feeds);
    assert Filter(posts, (p: Post) => p.feedId !in goneFeeds) == [];
  }
}
