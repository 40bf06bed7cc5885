# Prediction-market backend: market read side and identity sync, in Dafny

This project models the two parts of the prediction-market backend that hold logic.
The rest of the backend is HTTP and database wiring.

- **Question controller** (`src/controllers/questionController.ts`). The store's query
  results are taken as plain input sequences. The model covers the in-memory computations
  applied to them:
  - the listing's default parameters and pagination arithmetic (`Pagination`);
  - the single-market statistics: participants, volume and YES/NO percentage shares
    (`MarketStats`);
  - price-history reconstruction (`PriceHistory`): the timeframe window, bucketing of BUY
    transactions by minute, the chronological sort, and the forward fill of each side's
    price;
  - order-book construction (`OrderBook`): routing of pending orders into the four ladders,
    the per-entry fields, and the best-price-first sorts.
- **Auth controller** (`src/controllers/authController.ts`). Identity-provider webhook
  events create, overwrite or soft-delete a user record keyed by the provider's user id
  (`IdentitySync`). The user table is a `map` field of the class `UserStore`, and its
  handler methods update it in place. The pure function `Webhook` is the reference
  definition of one delivery, and the lemmas are proved about it.

Shared modules: `Common` (absent values, sides, order types, JavaScript truthiness),
`Text` (`String.prototype.trim` and `x || ''`), and `Sorting` (an in-place sort of an
array by a numeric key, proved sorted, a permutation and stable).

Modelling choices:
- Timestamps are integer milliseconds. The bucket key `toISOString().slice(0, 16)` is
  the timestamp divided by 60000, rounded down.
- Prices, volumes and percentages are `real`s, so no rounding happens in the model.
- A JavaScript comparator `(a, b) => b.p - a.p` sorts ascending by `-p`. That is how the
  descending sorts are stated.
- Each forward-fill test and each `||` default is a truthiness test. A price of `0` and
  an empty string therefore count as missing, as they do in the controllers.
- The clock (`new Date()`) is a parameter `now`.

## Model

| member | source | states |
|---|---|---|
| `Pagination.WithDefaults` | src/controllers/questionController.ts:94-102 | an absent page, limit, status, sortBy or sortOrder becomes '1', '10', 'ACTIVE', 'createdAt' or 'desc'; a given value is kept; category and search have no default |
| `Pagination.CeilDiv` | src/controllers/questionController.ts:164 | the page count is the least n with n·limit ≥ total, i.e. `Math.ceil(total / limit)` for limit > 0 |
| `Pagination.Paginate` | src/controllers/questionController.ts:164-172 | skip = (page−1)·limit and take = limit; totalPages is the ceiling of total/limit; hasNext ⇔ page < totalPages; hasPrev ⇔ page > 1 |
| `Pagination.TotalPagesUnique` | src/controllers/questionController.ts:164 | the two bounds of `Paginate` determine the page count uniquely |
| `Pagination.EmptyListing` | src/controllers/questionController.ts:164-172 | with no matches, page 1 has zero pages, skip 0, and neither a next nor a previous page |
| `MarketStats.Volume` | src/controllers/questionController.ts:256 | a missing token contributes 0 to the volume; a present one its cumulative volume |
| `MarketStats.ShareOf` | src/controllers/questionController.ts:261-264 | the share is the literal '0' exactly when the side's total is 0; otherwise it is part/(part+other)·100, which lies in (0, 100] |
| `MarketStats.ComputeStats` | src/controllers/questionController.ts:254-265 | participants = #YES holdings + #NO holdings; volume = YES volume + NO volume; holder counts and token totals are copied; each side's percentage is its share |
| `MarketStats.GetQuestionById` | src/controllers/questionController.ts:244-265 | not found exactly when the store returned no question; otherwise the question together with its statistics |
| `MarketStats.SharesSumTo100` | src/controllers/questionController.ts:261-264 | when both totals are positive, the two unrounded shares sum to exactly 100 |
| `MarketStats.OneSidedMarket` | src/controllers/questionController.ts:261-264 | with NO total 0 and YES total positive, YES reads 100 and NO reads '0' |
| `MarketStats.EmptyMarket` | src/controllers/questionController.ts:261-264 | with both totals 0, both shares read '0' |
| `PriceHistory.TimeframeDuration` | src/controllers/questionController.ts:299-314 | '1h', '1d', '7d' and '30d' map to 1, 24, 168 and 720 hours; any other value maps to 168 hours |
| `PriceHistory.StartDate` | src/controllers/questionController.ts:299-314 | the window starts at now minus the timeframe's duration, between 720 hours and 1 hour before now |
| `PriceHistory.UnknownTimeframeIsSevenDays` | src/controllers/questionController.ts:312-313 | an unrecognised timeframe gives the same window as '7d' |
| `PriceHistory.Minute` | src/controllers/questionController.ts:340 | the minute key of a timestamp is the whole number of minutes m with m·60000 ≤ t < (m+1)·60000, i.e. the timestamp truncated to the minute |
| `PriceHistory.MinutesOf` | src/controllers/questionController.ts:340 | the set of minute keys of the transactions contains every transaction's minute |
| `PriceHistory.FirstIndex` | src/controllers/questionController.ts:342-348 | the first transaction of a minute, which creates that minute's point and gives its timestamp |
| `PriceHistory.LastIndex` | src/controllers/questionController.ts:350-354 | the last transaction of a minute on a side, or none; no later one of that side and minute exists |
| `PriceHistory.Record` | src/controllers/questionController.ts:350-354 | a transaction keeps the point's timestamp and sets the YES price for a YES transaction, otherwise the NO price, leaving the other side as it was |
| `PriceHistory.Bucket` | src/controllers/questionController.ts:339-355 | a minute's point lies in that minute; its timestamp is the first transaction's time and each side's price is that of the side's last transaction in the minute, or null |
| `PriceHistory.BucketSnoc` | src/controllers/questionController.ts:339-355 | one more transaction changes only the point of its own minute: it creates the point if needed and records its price on its side |
| `PriceHistory.GroupedSnoc` | src/controllers/questionController.ts:339-355 | one iteration of the `forEach` keeps the record equal to the minute buckets of the transactions seen so far |
| `PriceHistory.GroupedValues` | src/controllers/questionController.ts:358 | `Object.values` of the record gives one point per distinct minute, each equal to that minute's bucket |
| `PriceHistory.Values` | src/controllers/questionController.ts:358 | `Object.values` lists the record's entries, one per key, in key-insertion order |
| `PriceHistory.BucketByMinute` | src/controllers/questionController.ts:337-358 | the points have distinct minutes, cover exactly the transactions' minutes, and each is its minute's bucket |
| `PriceHistory.SameMinuteBothSides` | src/controllers/questionController.ts:339-355 | a YES buy and a NO buy 30 seconds apart in one minute give a single point holding both prices, timed at the first |
| `PriceHistory.Fill` | src/controllers/questionController.ts:363-372 | forward fill keeps the length and every timestamp |
| `PriceHistory.FillKeepsPresentPrice` | src/controllers/questionController.ts:367-371 | a point that has a truthy price for a side keeps it |
| `PriceHistory.FillCarriesMostRecent` | src/controllers/questionController.ts:363-372 | a point lacking a side's price receives the most recent earlier truthy price of that side |
| `PriceHistory.FillNeverNullAfterFirst` | src/controllers/questionController.ts:363-372 | after the first truthy price of a side, no later point lacks one for that side |
| `PriceHistory.FillBeforeFirstUnchanged` | src/controllers/questionController.ts:363-372 | before a side's first truthy price, the side's value (null or 0) is left as it was |
| `PriceHistory.ForwardFill` | src/controllers/questionController.ts:363-372 | the loop carrying `lastYesPrice`/`lastNoPrice` turns the array into the forward fill of its old contents |
| `PriceHistory.BucketTimeIsTransactionTime` | src/controllers/questionController.ts:344 | a point's timestamp is a transaction's time, so it lies inside the fetched window |
| `PriceHistory.TimeKey` | src/controllers/questionController.ts:358-360 | the sort key is the point's timestamp, exactly, as a number |
| `PriceHistory.TimeKeyOrder` | src/controllers/questionController.ts:358-360 | comparing sort keys is comparing timestamps, so the comparator orders the points chronologically |
| `PriceHistory.PermutedBuckets` | src/controllers/questionController.ts:358-360 | sorting the points keeps them the minute buckets of the transactions |
| `PriceHistory.SortedIsStrictlyIncreasing` | src/controllers/questionController.ts:358-360 | points sorted by time with distinct minutes have strictly increasing timestamps |
| `PriceHistory.GetQuestionPriceHistory` | src/controllers/questionController.ts:293-381 | timeframe defaults to '7d' and interval to '1h'; one point per distinct minute, in strictly increasing time, inside the window; the series is the forward fill of the raw minute buckets |
| `OrderBook.DisplayNameOfAnonymous` | src/controllers/questionController.ts:442 | with both name parts absent or empty, the display name is empty |
| `OrderBook.DisplayNameOfFullName` | src/controllers/questionController.ts:442 | names without surrounding blanks are joined by one space |
| `OrderBook.DisplayName` | src/controllers/questionController.ts:442 | the display name is the trimmed join of the two name parts: it has no surrounding blanks and is no longer than both parts and a space |
| `OrderBook.ToOrderData` | src/controllers/questionController.ts:439-448 | an entry shows the remaining quantity, the price, totalAmount = price × remaining quantity, the display name, and the order's id, user and timestamps |
| `OrderBook.Routed` | src/controllers/questionController.ts:450-462 | the entries of one ladder, in fetch order: YES or else NO, BUY or else SELL; never more than the orders |
| `OrderBook.RoutedPrefixStep` | src/controllers/questionController.ts:450-462 | one more order extends the ladder of its side and type by its entry and leaves the other ladders as they were |
| `OrderBook.RoutingPartitions` | src/controllers/questionController.ts:438-463 | every order lands in exactly one of the four ladders: together they are a permutation of all entries |
| `OrderBook.RoutingCountsAll` | src/controllers/questionController.ts:438-463 | the four ladders together hold as many entries as there are orders |
| `OrderBook.RoutedComesFrom` | src/controllers/questionController.ts:450-462 | every entry of a ladder comes from an order of that ladder's side and type |
| `OrderBook.RoutedContains` | src/controllers/questionController.ts:450-462 | every order's entry is in the ladder of its side and type |
| `OrderBook.LaddersStep` | src/controllers/questionController.ts:438-463 | one iteration of the `forEach`, pushing the order's entry onto the list of its side and type, keeps the four lists equal to the routed entries of the orders seen so far |
| `OrderBook.SortLadder` | src/controllers/questionController.ts:466-469 | buys end up non-increasing and sells non-decreasing by price, each a permutation of its input; entries of equal price keep their input order, as the stable `Array.prototype.sort` keeps them |
| `OrderBook.LadderIsDetermined` | src/controllers/questionController.ts:466-469 | the sorted ladder is unique: two ladders ordered best price first that both keep the input order among equal prices are equal |
| `OrderBook.BidKey` | src/controllers/questionController.ts:466 | the buy comparator `b.pricePerToken - a.pricePerToken` is the ascending order of the negated price |
| `OrderBook.BidKeyBestFirst` | src/controllers/questionController.ts:466 | ordering by the bid key puts the higher price first |
| `OrderBook.AskKey` | src/controllers/questionController.ts:467 | the sell comparator `a.pricePerToken - b.pricePerToken` is the ascending order of the price |
| `OrderBook.AskKeyBestFirst` | src/controllers/questionController.ts:467 | ordering by the ask key puts the lower price first |
| `OrderBook.CheaperAskFirst` | src/controllers/questionController.ts:467 | a sorted sell ladder holding two asks lists the cheaper one first (e.g. 1.20 before 1.30) |
| `OrderBook.GetQuestionOrderBook` | src/controllers/questionController.ts:427-469 | each of the four lists is a permutation of its routed entries; buys are non-increasing and sells non-decreasing by price; entries of equal price stay in fetch order |
| `Sorting.SortByKey` | src/controllers/questionController.ts:466-469 | the in-place `sort` leaves the array ordered by the comparator's key and a permutation of its old contents, and it is stable: the elements of each key stay in their old order |
| `Sorting.StableSortUnique` | src/controllers/questionController.ts:466-469 | a stable sort's result is unique: two sequences sorted by the same key that list every key's elements in the same order are equal |
| `Text.Trim` | src/controllers/questionController.ts:442 | `trim` returns an infix with only whitespace around it that neither starts nor ends with whitespace |
| `Text.OrEmpty` | src/controllers/questionController.ts:442 | a nullable string defaults to the empty string: it is kept when truthy, else '' |
| `IdentitySync.FindPrimary` | src/controllers/authController.ts:57-58 | `find` returns the position of the first entry whose id is the primary id, or nothing if no entry matches |
| `IdentitySync.IsPrimary` | src/controllers/authController.ts:58 | an entry is primary only when the payload names a primary id and it equals the entry's id; with no primary id nothing matches |
| `IdentitySync.PrimaryEmail` | src/controllers/authController.ts:57-59 | the chosen entry is the first one with the primary id, else the first entry; none exactly when the list is absent or empty |
| `IdentitySync.ResolveEmail` | src/controllers/authController.ts:63 | the stored email is the chosen entry's address when truthy, else '' (also when no entry exists) |
| `IdentitySync.NameOrNull` | src/controllers/authController.ts:64-65 | a name becomes null exactly when it is falsy, and is kept otherwise |
| `IdentitySync.ResolveImageUrl` | src/controllers/authController.ts:66 | the image is `image_url` when truthy, else `profile_image_url` when truthy, else null |
| `IdentitySync.NewUser` | src/controllers/authController.ts:61-69 | the created record has the payload's provider id, resolved email, names, image and both timestamps, and is not deleted |
| `IdentitySync.UpdateOf` | src/controllers/authController.ts:95-101 | the update writes the resolved email, the nulled-if-falsy names, the image and the payload's update time |
| `IdentitySync.ApplyUpdate` | src/controllers/authController.ts:106-109 | the update writes email, names, image and update time from the payload, and keeps the provider id, creation time and deletion mark |
| `IdentitySync.SoftDelete` | src/controllers/authController.ts:124-130 | the delete sets deletedAt and updatedAt to the time given and keeps every other field |
| `IdentitySync.Webhook` | src/controllers/authController.ts:28-48 | one delivery: the status is 200 or 400; a 400 leaves the table unchanged; no key other than the event's provider id appears; every other record stays as it was |
| `IdentitySync.WebhookTouchesOneRecord` | src/controllers/authController.ts:28-48 | the status is 200 or 400; a 400 leaves the table unchanged; only the event's own record changes; only a successful create adds a key |
| `IdentitySync.WebhookFailsExactly` | src/controllers/authController.ts:44-48 | 400 exactly for a create on a known id or an update or delete on an unknown id |
| `IdentitySync.UnknownEventIgnored` | src/controllers/authController.ts:38-42 | an unrecognised event type leaves the table unchanged and yields 200 |
| `IdentitySync.WebhookKeepsKeying` | src/controllers/authController.ts:28-48 | every record stays filed under its own provider id |
| `IdentitySync.UpdateOverwrites` | src/controllers/authController.ts:95-109 | an update overwrites email, names, image and update time, and nulls absent names; it keeps the provider id, creation time and deletion mark |
| `IdentitySync.UpdateReplayIsIdempotent` | src/controllers/authController.ts:95-109 | delivering the same update twice gives the state a single delivery gives |
| `IdentitySync.DeleteIsSoft` | src/controllers/authController.ts:124-130 | a delete keeps the record and sets deletedAt and updatedAt to now; no other field changes |
| `IdentitySync.DeleteUnknownFails` | src/controllers/authController.ts:124-136 | a delete for an unknown provider id fails with 400 and changes nothing |
| `IdentitySync.UserStore.HandleUserCreated` | src/controllers/authController.ts:52-83 | inserts the new record when the provider id is new; fails and changes nothing otherwise |
| `IdentitySync.UserStore.HandleUserUpdated` | src/controllers/authController.ts:86-116 | overwrites the record's fields when the id is known; fails and changes nothing otherwise |
| `IdentitySync.UserStore.HandleUserDeleted` | src/controllers/authController.ts:119-137 | soft-deletes the record at `now` when the id is known; fails and changes nothing otherwise |
| `IdentitySync.UserStore.HandleWebhookCallback` | src/controllers/authController.ts:12-49 | the new table and the status are exactly those of the reference transition `Webhook` |

## Left out

- Database queries (`findMany`, `count`, `findUnique`, `create`, `update`) are not modelled. That covers the where and orderBy clauses, case-insensitive search, skip/take paging, and `include`/`select` shaping. Their results are inputs. `GetQuestionPriceHistory` requires what the fetch guarantees: every transaction is created at or after the window's start. The order book takes the fetched pending orders as given.
- Express request and response handling, JSON envelopes, the 404 and 500 responses of the catalog endpoints, and logging are not modelled. `GetQuestionById` returns `NotFound` where the controller answers 404.
- `parseInt` on the page and limit query strings is not modelled. `Paginate` takes them as integers and requires limit > 0. A limit of 0 or a non-numeric limit would give `Infinity` or `NaN` in JavaScript. A negative limit would give a page count of 0 or less.
- `toNumber()` on decimals, float arithmetic and `toFixed(2)` formatting are not modelled. Prices and shares are exact `real`s, so `MarketStats.ShareOf` states the unrounded share.
- `MarketStats.ComputeStats` takes the token totals as naturals. The stored totals are never negative, and a negative pair summing to zero would divide by zero.
- Webhook signature verification (`verifyWebhook`) is not modelled: the event is taken as already verified. Its failure, which also yields 400, is not modelled.
- `syncUser` is a stub that answers a fixed message, so it is not modelled.
- The database-generated user id (`id`) is not modelled. Records are keyed by the provider id.
- `IdentitySync.Webhook` does not model store failures other than the ones the table decides. These are: a create on a provider id already present (its unique constraint), and an update or delete of a missing one. Constraints on other columns are not part of this model, and neither are transient database errors. Both would also yield 400 with the table unchanged.
- `IdentitySync.UserStore.HandleUserDeleted` stamps `deletedAt` and `updatedAt` with one `now`. `handleUserDeleted` calls `new Date()` twice (src/controllers/authController.ts:127-128), so the two values may differ by a millisecond.
- An absent or malformed provider id or timestamp in the payload is not modelled. Such payloads make the store call fail.
- The compiled `dist/controllers/authController.js` duplicates the TypeScript source, so it is not modelled separately. The seed script, route files, type declarations and server bootstrap hold no core logic and are not modelled either.
- The minute key assumes timestamps within the years 0000–9999, where `toISOString().slice(0, 16)` is the timestamp divided by 60000, rounded down.
- The comparators at src/controllers/questionController.ts:466-469 do not separate orders of equal price, so the ladders are not strictly sorted. The model states what the comparators give, buys non-increasing and sells non-decreasing, and it states the stability of `Array.prototype.sort`: orders of equal price stay in fetch order.
