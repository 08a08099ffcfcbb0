# Blog aggregator ingestion core, in Dafny

This project models the ingestion path of the `gator` RSS aggregator, a command-line program
written in TypeScript over PostgreSQL.

- **Store** (`queries.dfy`, `schema.dfy`): the four tables `users`, `feeds`, `feed_follows` and
  `posts` are held in memory by the class `Queries.Store`.
  - The schema's primary keys, UNIQUE columns, NOT NULL columns and foreign keys are the
    store's invariant, `Schema.Consistent`.
  - The selects are functions of the tables. The insert, update and delete queries are methods
    that change the tables in place and keep the invariant.
- **One aggregation cycle** (`ingest.dfy`): `scrapeFeeds` does the following.
  1. It picks the feed fetched longest ago, with never-fetched feeds first.
  2. It stamps that feed as fetched.
  3. It fetches and normalises the feed.
  4. It inserts the items one by one, stopping silently at the first insert that throws.
- **Start of the `agg` command** (`ingest.dfy`): the argument and interval checks of
  `handlerAgg`.
- **Interval parser** (`duration.dfy`): `parseDuration`.
- **Feed normalisation** (`rss.dfy`): what `fetchFeed` does after the XML parse. It rejects a
  document without `rss.channel` and turns `channel.item` into a list.
- **Command dispatch** (`commands.dfy`): the command registry (`registerCommand`, `runCommand`)
  and the `middlewareLoggedIn` guard.

Some parts of the system become parameters of the model:

- "now" is a `Timestamp` parameter.
- The HTTP request together with the XML parser is a function `fetchXml` that may fail.
- `new Date(item.pubDate)` is a function `parseDate` that returns `None` for an Invalid Date.
- Whether the database can be reached is the field `Store.connected`.
- Random UUID keys are fresh numbers drawn from the counter `Store.nextId`.

## Model

| member | source | states |
|---|---|---|
| Schema.Filter | src/db/queries.ts:79-83 | A `DELETE ... WHERE` keeps exactly the rows the condition spares, each as many times as it occurred, drops every row it matches, and never keeps more rows than before |
| Schema.FilterNoDuplicates | src/db/schema.ts:4 | Deleting rows keeps a table free of duplicate rows |
| Schema.DeleteUsersCascade | src/db/schema.ts:16-18 | Deleting users removes exactly their feeds (`on delete cascade` on feeds.user_id). A follow survives if and only if it was there and neither its user nor its feed was deleted. A post survives if and only if it was there and its feed was not deleted |
| Schema.DeleteAllUsersEmptiesTables | src/db/queries.ts:17-19 | On a consistent store, deleting every user empties all four tables, because feeds cascade from users and follows and posts cascade from feeds |
| Queries.GetUser | src/db/queries.ts:10-15 | Returns a user with the name asked for, or nothing only when no user has that name |
| Queries.GetUserIsUnique | src/db/schema.ts:7 | With names unique, `getUser(u.name)` returns exactly `u` |
| Queries.GetFeedByUrl | src/db/queries.ts:64-67 | Returns a feed with that URL, or nothing only when no feed has that URL |
| Queries.GetFeedByUrlIsUnique | src/db/schema.ts:15 | With URLs unique, `getFeedByUrl(f.url)` returns exactly `f` |
| Queries.GetFeedFollowsForUser | src/db/queries.ts:69-77 | Every name listed is the name of a feed the user follows, at most one row per follow |
| Queries.FollowRowsOf | src/db/queries.ts:76 | Exactly the follow rows of the user (`WHERE feed_follows.user_id = ...`) |
| Queries.FollowsAllListed | src/db/queries.ts:69-77 | Under the feed_id foreign key the join loses no follow: one name per follow row of the user, in table order, each the name of the followed feed |
| Queries.GetAllFeeds | src/db/queries.ts:37-46 | Every row is a feed joined with the user who owns it |
| Queries.AllFeedsListed | src/db/queries.ts:37-46 | Under the user_id foreign key the inner join loses no feed: one row per feed, in table order |
| Queries.NextFeedToFetch | src/db/queries.ts:92-99 | Nothing if and only if there are no feeds; otherwise a feed whose lastFetchedAt is no later than any other, and a never-fetched feed whenever one exists (ASC NULLS FIRST, LIMIT 1) |
| Queries.StampFeed | src/db/queries.ts:85-90 | The feed with the id gets lastFetchedAt = now and updatedAt = now with its other columns unchanged; every other feed is unchanged; the table keeps its length |
| Queries.StampUnknownFeedIsNoOp | src/db/queries.ts:85-90 | Stamping an id that no feed has leaves the table as it was |
| Queries.StampKeepsFeedsOk | src/db/queries.ts:85-90 | Stamping keeps the feeds table consistent with the schema and keeps its set of ids |
| Queries.StampedFeedRotates | src/db/queries.ts:92-98 | After the selected feed is stamped with a time later than every recorded fetch, the next selection is a different feed, provided there are at least two feeds |
| Queries.InsertPost | src/db/queries.ts:101-120 | Fails if and only if the date is invalid, the title or URL is missing, or the URL is new and the feed does not exist. Returns no row, and changes nothing, if and only if the URL is already taken. Otherwise it appends exactly the new post with a fresh id |
| Queries.InsertPostKeepsPostsOk | src/db/schema.ts:40-51 | An insert keeps post URLs unique, ids fresh and feed references valid |
| Queries.InsertPostTwice | src/db/queries.ts:117 | Inserting the same post twice: the second insert returns nothing and changes nothing, and exactly one post has the URL |
| Queries.FollowedPosts | src/db/queries.ts:130-133 | Every row comes from a post of a feed that the user follows |
| Queries.FollowedPostsComplete | src/db/queries.ts:130-133 | Every post of a feed that the user follows appears in the join |
| Queries.SortNewestFirst | src/db/queries.ts:134 | The rows, permuted (same multiset), by publishedAt descending with NULLs first |
| Queries.InsertNewestFirstSorted | src/db/queries.ts:134 | Inserting a row into a sorted list keeps it sorted |
| Queries.TakeIsTop | src/db/queries.ts:134-135 | The first k rows of the sorted list rank no later than any row left out |
| Queries.GetPostsForUser | src/db/queries.ts:122-136 | Returns min(limit, matching) rows, with limit defaulting to 2. They are a sub-multiset of the posts of followed feeds (no row repeated beyond the join), sorted newest first, and no matching post left out is newer than one returned |
| Queries.Store.constructor | src/db/schema.ts:3-51 | An empty database satisfies every constraint |
| Queries.Store.CreateUser | src/db/queries.ts:5-8 | An existing name fails with a unique violation and changes nothing. Otherwise it appends one user with a fresh id and that name, and the invariant is kept |
| Queries.Store.DeleteAllUsers | src/db/queries.ts:17-19 | Empties every table (cascades) when the database is reachable; otherwise fails and changes nothing |
| Queries.Store.CreateFeed | src/db/queries.ts:25-35 | A taken URL or an unknown user fails and changes nothing. Otherwise it appends one feed that has never been fetched |
| Queries.Store.CreateFeedFollow | src/db/queries.ts:48-62 | A duplicate pair fails (unique violation) and an unknown user or feed fails (foreign key). Otherwise it adds one follow row and returns that user's name and that feed's name |
| Queries.Store.DeleteFeedFollow | src/db/queries.ts:79-83 | Removes exactly the rows matching both the user and the feed; afterwards the user does not follow the feed |
| Queries.Store.MarkFeedFetched | src/db/queries.ts:85-90 | The feeds table becomes `StampFeed` of the old one; nothing else changes |
| Queries.Store.CreatePost | src/db/queries.ts:101-120 | The outcome and the new posts table are those of `InsertPost`; the other tables do not change |
| Rss.ItemList | src/rss.ts:36-39 | An absent or falsy `item` gives no items, an array passes through, and anything else becomes a one-element list |
| Rss.NormalizeFeed | src/rss.ts:30-48 | Fails with the missing-channel error if and only if `rss` or `rss.channel` is missing or falsy. Otherwise it copies title, link and description unchanged and lists the items |
| Rss.FetchFeed | src/rss.ts:19-49 | A fetcher failure is passed on; otherwise the parsed document is normalised |
| Rss.SingleItemIsSingletonList | src/rss.ts:38 | A single `item` object and a one-element array holding it give the same list |
| Rss.ItemsRecovered | src/rss.ts:34-48 | Whether a channel has 0, 1 or many items, normalising gives them back in document order, with the channel's fields copied |
| Duration.LeadingDigits | src/index.ts:235 | The longest run of digits at the start of the string: all digits, followed by a non-digit or the end |
| Duration.ParseDuration | src/index.ts:234-254 | Any failure is the "invalid duration" error for that input |
| Duration.ParseDurationAcceptsPattern | src/index.ts:235-237 | Succeeds exactly on the strings matching `^\d+(ms\|s\|m\|h)$` |
| Duration.ParseDurationValue | src/index.ts:239-250 | Digits followed by a unit give the digits' value times 1, 1000, 60000 or 3600000 |
| Duration.ParseDurationMillisExample | src/index.ts:243-244 | "1500ms" is 1500 |
| Duration.ParseDurationSecondsExample | src/index.ts:245-246 | "30s" is 30000 |
| Duration.ParseDurationHoursExample | src/index.ts:249-250 | "1h" is 3600000 |
| Duration.ParseDurationRejectsExamples | src/index.ts:235-237 | "5", "3x", "" and "-5s" are rejected |
| Ingest.ItemArgs | src/index.ts:270-276 | A post's title comes from the item's title and its URL from `link`. Its description is the item's description text when that is present and non-empty, and null otherwise (never ""). Its date is the parsed `pubDate`, or invalid when `pubDate` is missing. Its feed id is the selected feed's |
| Ingest.IngestFrom | src/index.ts:266-280 | The loop only appends to the posts table, and the id counter grows by the number of new posts. If it stops, it stops at the first item whose insert throws, and that item would still throw. Every item before the stop has its URL in the table. Every new post is made from one of those items, with consecutive fresh ids |
| Ingest.IngestAddsFreshUrls | src/index.ts:269-277 | Every post the loop adds has a URL that was not in the table before the loop (ON CONFLICT DO NOTHING) |
| Ingest.FirstWithUrl | src/index.ts:269 | The first item, from a given index on, whose link is the URL; none of the items before it has that link |
| Ingest.IngestFirstItemWins | src/index.ts:269-277 | Each new post is made from the first item carrying its URL, and that item comes before the stop |
| Ingest.IngestFollowsDocumentOrder | src/index.ts:269-277 | Posts are inserted in document order: a later post comes from a later item |
| Ingest.IngestPassesOnlyInsertable | src/index.ts:269-277 | Every item before the stop was accepted by `createPost`: its feed exists, its URL was already in the table, or an earlier item carries the same URL (a conflict, not a foreign-key violation) |
| Ingest.IngestReplay | src/index.ts:269-277 | Running the loop again over the same items, at a later time, changes nothing and stops at the same item with the same error |
| Ingest.IngestKeepsPostsOk | src/index.ts:269-277 | The loop keeps the posts table consistent |
| Ingest.Cycle | src/index.ts:256-281 | An unreachable store fails before anything changes, and that error escapes. An empty feeds table reports nothing to do and changes nothing. Otherwise the selected feed is stamped before the fetch and stays stamped, and the report names it. A failed fetch is caught, with no post added. The posts table only grows, every new post belongs to the selected feed and was created now, and the id counter grows by the number of new posts |
| Ingest.CycleKeepsConsistent | src/index.ts:256-281 | A cycle keeps every constraint of the schema |
| Ingest.ScrapeFeeds | src/index.ts:256-281 | Running `createPost` on the store item by item leaves exactly the feeds, posts and id counter of `Cycle`, returns its report, keeps the store's invariant and changes no other table |
| Ingest.HandlerAgg | src/index.ts:110-117 | No argument is a usage error and an unparsable interval is the "invalid duration" error, both before any cycle and with the store untouched. Otherwise the parsed interval is kept, and the store and the first cycle's outcome are exactly those of one `Cycle` |
| Commands.CommandsRegistry.constructor | src/index.ts:301 | A new registry has no commands |
| Commands.CommandsRegistry.RegisterCommand | src/index.ts:35-41 | The name now maps to the handler; every other name keeps its handler |
| Commands.CommandsRegistry.RunCommand | src/index.ts:43-53 | Fails with "not found" if and only if the name is unregistered; otherwise calls the stored handler with the name and the arguments |
| Commands.MainRegistry | src/index.ts:301-313 | The registry `main` builds is `MainHandlers`: six plain commands and five commands behind `middlewareLoggedIn` |
| Commands.LatestRegistrationWins | src/index.ts:40 | After two registrations under one name, running it calls the later handler; an unregistered name is not found |
| Commands.LookupAsWritten | src/index.ts:48 | A property read on the plain object `{}` finds own entries first, then the members every object inherits (its methods and `__proto__`), and nothing only for other names |
| Commands.RunCommandAsWritten | src/index.ts:48-52 | As written, `runCommand` fails with "not found" if and only if the name is neither registered nor an inherited member. An unregistered `__proto__` finds the prototype object, and calling it throws a TypeError. An unregistered inherited method is called |
| Commands.InheritedNameIsDispatched | src/index.ts:48-52 | "toString" is not registered, yet the lookup as written dispatches it instead of failing |
| Commands.PrototypeNameIsNotCallable | src/index.ts:48-52 | "__proto__" is not registered; as written it throws a TypeError instead of failing with "not found" |
| Commands.RunCommandAgreesOffPrototype | src/index.ts:48-52 | For every other name, the lookup as written fails with "not found" exactly when the name is unregistered, and otherwise calls the registered handler |
| Commands.MiddlewareLoggedIn | src/index.ts:201-217 | No current user name, or an empty one, fails as not logged in. A name with no user row fails as unknown user. Otherwise it calls the handler with the user row of that name and the same arguments |
| Commands.MiddlewarePassesKnownUser | src/index.ts:208-215 | A logged-in user whose row exists always gets through with exactly that row |

## Left out

- The HTTP request, its User-Agent header and `XMLParser` are a foreign service and a foreign library. Together they are the parameter `fetchXml`, and their output is the tree `Rss.XmlNode`.
- fast-xml-parser's value parsing is left out: it turns numeric text into numbers and the texts `true` and `false` into booleans. A `<description>false</description>` therefore becomes `false`, and `item.description || null` turns it into null; the model keeps it as the text "false". Attributes and mixed content are left out too: a title, link, description or pubDate that is not a text node is treated as missing.
- `new Date()` and `new Date(item.pubDate)`: the current time is a parameter, and date parsing is the parameter `parseDate`.
- Queries.StampFeed: `markFeedFetched` evaluates `new Date()` twice, so `lastFetchedAt` and `updatedAt` can differ by a millisecond. The model writes the one `now` to both.
- Registering a command under the name `__proto__` would replace the registry's prototype in JavaScript. The model stores it as an ordinary entry; `main` never registers that name.
- Queries.Store.DeleteAllUsers: the method assigns the four empty tables directly. That the schema's cascades give exactly those tables is the separate lemma `Schema.DeleteAllUsersEmptiesTables`, which the method does not call.
- Random UUIDs are drawn from a counter instead. Only their freshness matters to the constraints.
- PostgreSQL and drizzle execution: only the tables' contents and the constraint checks are modelled.
- The order in which PostgreSQL checks several constraints on one insert is fixed: date serialisation, then NOT NULL, then the URL conflict, then the foreign key.
- Rows returned without ORDER BY (`getAllFeeds`, `getFeedFollowsForUser`, `getUser`) come back in table order.
- Queries.NextFeedToFetch: among feeds with equal `lastFetchedAt`, PostgreSQL may return any one of them. The model returns the first in table order, and only the ordering property is proved.
- Whether the database can be reached is fixed for a whole cycle.
  - A failure between the select and the mark is not modelled, nor is one in the middle of the insert loop.
  - The selects are functions of the tables, so an unreachable store shows up as the first statement of `scrapeFeeds` failing.
- Ingest.HandlerAgg: `setInterval`, the later cycles, `clearInterval` and the SIGINT promise are timer-driven and concurrent. Only the argument checks and the first cycle are modelled. The rejection of an un-awaited cycle is returned, not raised as an unhandled rejection.
- src/config.ts (home-directory JSON file) is not part of this model. The current user name is a parameter of `Commands.MiddlewareLoggedIn`.
- Commands.MiddlewareLoggedIn: its `getUser` lookup throws when the database cannot be reached. The model reads the users table as a value, so that error is not modelled.
- The handlers' own bodies are left out. The plain handlers `login`, `register`, `reset` and `feeds` and the user handlers (`addfeed`, `follow`, `following`, `unfollow`, `browse`) call the queries modelled here and print; `users` calls `getUsers`, which is left out (next line). The model names the handlers; it does not run them.
- `getUsers`, `printFeed`, console output, `main`'s argument-count check and `process.exit` are left out.
- Duration.ParseDuration: the result is an unbounded natural. JavaScript's `parseInt` on a very long digit string loses precision, and so does the multiplication. The unreachable `default: return 0` branch of the `switch` has no counterpart.
- Queries.GetPostsForUser: `limit` is a natural. `handlerBrowse` may pass `parseInt` of a non-number (NaN), which is not modelled.

## Findings

| source | as written | input that shows it | evidently intended | confidence | as-written member | corrected member |
|---|---|---|---|---|---|---|
| src/index.ts:48-52 | The registry is a plain object `{}`, so `registry[cmdName]` also finds members inherited from `Object.prototype`, which are truthy, and the "not found" error is skipped | the command name `toString` (also `constructor`, `valueOf`, `hasOwnProperty`, …), which is dispatched; the command name `__proto__`, which throws "handler is not a function" | An unregistered name fails with "Command 'toString' not found" | not executed; follows from JavaScript property lookup | Commands.RunCommandAsWritten, Commands.InheritedNameIsDispatched, Commands.PrototypeNameIsNotCallable | Commands.CommandsRegistry.RunCommand |
