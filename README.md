# Group message statistics bot, modelled in Dafny

This project models the core of `bot.js`: the per-group chat statistics table. It covers three parts:

- The message handler decides what each incoming message does. A message without a chat or a sender is ignored. A message from a chat that is not a group gets a fixed hint. The text `/stats` asks for a report. Anything else is counted.
- `updateUserStats` finds or creates the document of the sender's (user_id, group_id) pair. It then changes the document in place and saves it.
- `sendGroupStats` lists a group's documents sorted by message count and then by average message length, both descending. It adds up the counts and renders one line per user plus a total.

The store is the UserStats collection, an in-memory table `map<Key, Record>` held by the class `Store.UserStatsStore`. The table is keyed by the collection's unique (user_id, group_id) index. A `Record` has exactly the five schema fields: `user_id`, `group_id`, `username`, `message_count` and `average_message_length`. Null fields are `None`. Replies are returned as values (`Bot.Reply`) instead of being sent. A failure of the store's find-or-create is a boolean parameter.

Files and modules:

- `values.dfy` (`Values`): optional fields, JavaScript truthiness of a string, and the decimal text a number gets when it is stored in a string field.
- `record.dfy` (`StatsRecord`): the document, the sender, and the per-message rules: the name fallback chain and the halfway-rounding-up average.
- `ranking.dfy` (`Ranking`): the report's two-key descending order, insertion into a sorted listing, and message totals.
- `store.dfy` (`Store`): the table and its class, with find-or-create, update-and-save and the sorted group query. It also holds lemmas about sequences of counted messages and about group totals.
- `bot.dfy` (`Bot`): dispatch, rendering of the report, and the handler over the store.

Three behaviours are modelled as `bot.js` writes them:

- The stored average is tested for truthiness, so a stored 0 would be treated like null. The model keeps that test and proves that 0 is never stored. `Store.UserStatsStore.Valid` includes `AveragesPositive`.
- The name fallback ends with the numeric sender id. The string schema type stores that id as its decimal text.
- MongoDB orders null below every number. So in the descending sort, a user without an average comes after users with an average and the same count.

Later versions of this bot add more. They track response times and a "friendship rating", and they strip a mention of the bot from the text before matching the command. This version of `bot.js` has none of that, and the model follows the code.

## Model

| member | source | states |
|---|---|---|
| `Bot.Dispatch` | bot.js:30-41 | A message takes exactly one of four branches. It is ignored iff the message, its chat or its sender is missing. It gets the hint iff complete and chat id > 0. It is a report request iff complete, chat id <= 0 and text exactly `/stats`. Otherwise, with or without text, it is counted, with the chat id, sender and text passed on. |
| `Bot.HandleMessage` | bot.js:30-41 | Ignored message: no reply, store unchanged. Non-group chat: exactly the fixed hint reply to that chat, store unchanged. `/stats` in a group: a report of that group, store unchanged. Any other group message: no reply, and the store becomes the table after counting it, or stays unchanged if find-or-create fails. The store invariant is kept. |
| `Bot.Render` | bot.js:47-54 | The `reduce` and `forEach` loops give one row per listed document, in listing order, with its username, count and average. The total is the sum of the listed counts. |
| `Bot.SendGroupStats` | bot.js:43-59 | The report renders some sorted listing of exactly the group's documents. It has one row per document of the group. Its total equals the number of messages counted in the group, which is 0 for an empty group and not an error. |
| `Store.UserStatsStore.FindOneOrCreate` | bot.js:64-67 | Failure returns nothing and leaves the table unchanged. An existing document is returned unchanged and the table is unchanged. Otherwise exactly one document is added under the key, with count 0, no name and no average, and that document is returned. The keying invariant is kept. |
| `Store.UserStatsStore.UpdateUserStats` | bot.js:61-84 | The table becomes `AfterUpdate` of the old table for the sender's pair, or is unchanged when find-or-create fails. The keying and positive-average invariants are kept. |
| `Store.UserStatsStore.FindByGroup` | bot.js:44-46 | The result is sorted by count and then by average, both descending. It is a permutation of the group's documents: each document with that `group_id` appears exactly once. |
| `Store.AfterUpdate` | bot.js:62-82 | Only the sender's (user, group) key is added or changed. Its count is the previous count (0 for a new pair) plus one, whatever the content. Its name is the freshly resolved one, so the old name never survives. Its average follows `NextAverage`. Every other document is unchanged. |
| `Store.UpdateKeepsKeying` | bot.js:24 | Counting a message keeps every document under its own (user_id, group_id), so the table holds at most one document per pair. |
| `Store.UpdateKeepsAveragesPositive` | bot.js:74-78 | If no stored average is 0 before a message is counted, none is 0 after it. Once set, an average is at least 1. |
| `Store.ReplayCount` | bot.js:69 | N counted messages from one user in a group raise that pair's count by exactly N, whatever their texts. From a pair without a document, the count becomes N. |
| `Store.ReplayOthersUnchanged` | bot.js:62-65 | Counting messages of other pairs neither creates nor changes a pair's document. |
| `Store.QueryListsGroup` | bot.js:44-48 | A group listing contains a document iff it is stored with that group_id. It contains none twice, its length is the number of the group's documents, and its counts add up to the group total. |
| `Store.ReportOrderExample` | bot.js:46 | Counts 5, 5, 2 with averages 3, 9, 100 can only be listed as (5,9), (5,3), (2,100). |
| `Store.UpdateGroupTotal` | bot.js:48 | Counting a message in a group raises the group's report total by exactly 1 and leaves every other group's total unchanged. |
| `Store.ReplayGroupTotal` | bot.js:48 | N counted messages in a group raise its report total by exactly N. |
| `StatsRecord.ResolveName` | bot.js:72 | The stored name is never empty. It is the username if that is non-empty, else the first name if that is non-empty, else the decimal text of the sender id. Absent and empty both count as missing. |
| `StatsRecord.HalfwayUp` | bot.js:76 | The result r is ceil((a + n) / 2): a + n <= 2r <= a + n + 1. |
| `StatsRecord.NextAverage` | bot.js:74-79 | No text or empty text keeps the average. No average yet (or a falsy 0) gives the text length. Otherwise the result is ceil((prev + len) / 2). With text, the new average lies between min(prev, len) and max(prev, len). A non-zero average never becomes 0. |
| `StatsRecord.HalfwaySmoothingTrace` | bot.js:74-79 | Lengths 3, 10, 1, 20 give averages 3, 7, 4, 12, not the running means. |
| `Ranking.Insert` | bot.js:46 | Inserting a document into a listing sorted by (count, average) descending gives a sorted listing with exactly one more occurrence of that document. |
| `Ranking.SumCountsOfListing` | bot.js:48 | The `reduce` total of a listing of a set of documents equals the set's total, whatever the order. |
| `Values.DecimalRoundTrip` | bot.js:72 | Reading back the decimal text stored for a numeric id gives the id. |
| `Values.DecimalStringInjective` | bot.js:72 | Two different ids never get the same stored name through the id fallback. |

## Left out

- Network I/O is not modelled. The Telegram polling client and `bot.sendMessage` (bot.js:6, 29, 35, 57) become returned `Reply` values.
- Persistence is not modelled. The MongoDB connection, the schema plugin and the model object (bot.js:4-5, 15, 25-27) become the in-memory table. `findOneOrCreate` is foreign, so only its find-or-create contract is modelled.
- Store.UserStatsStore.UpdateUserStats: `save()` (bot.js:82) is taken to succeed. A failing save is not modelled; only the error branch of find-or-create is (bot.js:66-67).
- The startup check for `TELEGRAM_API_TOKEN` (bot.js:10-13) is environment configuration and is not modelled.
- `console.log` / `console.error` diagnostics (bot.js:56, 67, 81) are not modelled. That includes the undefined `stats.chat_id` used only for logging.
- The exact `util.format` text of the report (bot.js:50-54) is not modelled. A `Report` carries the chat title, one row per user with the printed fields, and the total.
- Asynchronous callbacks are not modelled, so the possible race between two rapid updates of the same pair is not captured. Messages are handled one at a time.
- The loaded document is a value that `save()` writes back under its key. Aliasing of the Mongoose document object is not modelled.
- StatsRecord.NextAverage: a text's length is its number of Dafny characters (Unicode scalar values). JavaScript's `length` counts UTF-16 code units, so texts outside the Basic Multilingual Plane are shorter in the model.
- Store.AfterUpdate: counts and averages are unbounded integers. JavaScript numbers lose precision above 2^53, and `Math.ceil` on a double is exact only below that bound.
- Store.UserStatsStore.FindByGroup: the order among documents equal in both count and average is unspecified in the store. The model accepts any sorted listing, so the order of such ties is not captured.
