# FeedManagerBot, modelled in Dafny

FeedManagerBot is a Telegram bot. It reads a fixed set of RSS feeds and stores
each new item as an article in Postgres, deduplicated by link. Its notifier
sends the first article of an in-memory list, handed to it when it is created,
to every subscriber; nothing stored is read for that. Users choose sources
from an inline-keyboard menu.
This project models the bot's sequential core and proves what the code promises
about it:

- **Callback protocol.** A menu button carries `source_add:<id>`. Pressing it
  is parsed back by `strings.Split` on `':'`, a prefix check and
  `strconv.Atoi`. Modules `Service`, `GoStrings` and `Strconv` hold the parse.
  The round trip, the error cases and the effect order (subscription insert,
  then confirmation) are proved.
- **Router.** Module `Bot` holds the class `Bot<V, C>`, with the two lazily
  created handler maps that `RegisterCmd` and `RegisterCallback` update. It also
  routes messages by command and callbacks by the text before the first `':'`.
  When a handler returns an error, the router sends exactly one
  "internal error: …" reply.
- **`/listsource`.** `sort.SliceStable` by name (which Go runs as insertion
  sort on blocks followed by merging) is modelled by an in-place insertion sort
  on an array (module `SourceSort`). `SortByNameIsTheStableSort` proves that
  any stable sort by name gives the same result, so the model's output is
  Go's. The text built afterwards names only the last
  source after sorting.
- **Tables.** Modules `Articles` and `Sources` model the `articles` and
  `sources` tables as in-memory row sequences, as their SQL defines them.
  Articles: insert-if-absent keyed on link, the unposted join with
  subscriptions, and the point update by id. Sources: an insert without a
  duplicate check, and a `SELECT` that never reads `id`.
  Module `Rows` models the pgx `rows.Next`/`Scan`/`Err` loop.
- **Fetch step.** Module `Rss` maps feed entries to items, and module `Fetcher`
  maps items to articles and adds them in order. `processItems` stops at the
  first failed `Add`. `Fetch` runs the two hard-coded sources.
- **Notify step.** Module `Notifier` sends the first article of its in-memory
  list to every subscriber. Send errors are swallowed. The message text is
  `fmt.Sprintf` with the title as the format, modelled in module `Fmt` as Go's
  printer reads a format with no operands.

The outside world enters as parameters:
- database errors, a `RowsFault` for a query's result loop, and feed-load
  outcomes;
- a per-`Add` error sequence;
- the `now` timestamp and the error a cancelled context reports;
- the order in which the fetch goroutines run.

A view or callback returns a `ViewResult`. It lists, in order, the calls the
view makes on the user repository, the subscription repository and the
Telegram API, together with the error the view returns.

The notifier in `internal/notifier/notifier.go` keeps a fixed in-memory list
of articles and never marks anything posted. `MarkAsPosted` and
`GetAllNotPostedByUserSources` are modelled as table operations in their own
right.

`internal/model` (the `Source`, `Item`, `Article` and `TgUser` records) is not
part of this model. Its records are rebuilt in `models.dfy` from the fields
that the modelled code reads and writes.

## Model

| member | source | states |
|---|---|---|
| `Service.EncodeAddSource` | internal/bot/service.go:56 | The button data is "source_add:" followed by the `%d` text of the id, with no further ':' |
| `Service.Confirmation` | internal/bot/service.go:112 | The confirmation is the fixed sentence followed by the id's decimal text, which `Atoi` reads back as the id |
| `Service.ListLine` | internal/bot/service.go:78-81 | One list text: the count header, then the name with one trailing backslash trimmed; a name without a trailing backslash appears whole |
| `Service.SourceListText` | internal/bot/service.go:76-83 | The text is empty exactly when there are no sources |
| `Service.ParseAddSource` | internal/bot/service.go:99-107 | Data is rejected as "invalid callback data" if and only if splitting on ':' does not give exactly two pieces with first piece "source_add"; a parsed id is a 64-bit integer |
| `Service.ParseAddSourceByShape` | internal/bot/service.go:100-107 | Data that is not "source_add:" followed by a colon-free tail is invalid; otherwise the result is exactly `Atoi` of the tail, its error wrapped |
| `Service.ParseEncodeAddSource` | internal/bot/service.go:56 | Round trip: the button data "source_add:%d" of any 64-bit id parses back to that id |
| `Service.ParseAddSourceEmptyId` | internal/bot/service.go:104-107 | "source_add:" is rejected with the `Atoi` syntax error for the empty string |
| `Service.CallbackAddSource` | internal/bot/service.go:97-117 | A parse failure does nothing and returns its error; otherwise exactly one subscription (chat, id) is added first; if that fails, its error is returned and nothing is sent; otherwise the confirmation is sent and the send's error returned; nil only when both succeed |
| `Service.CallbackAddSourceOfButton` | internal/bot/service.go:109-116 | Pressing the button of source `id` adds subscription (chat, id), then sends the confirmation naming `id` |
| `Service.CmdStart` | internal/bot/service.go:29-44 | The user (chat id, user name) is inserted first; a failed insert is returned with no greeting; otherwise "Hi there!" is sent to the chat and the send's error returned |
| `Service.CmdAddSource` | internal/bot/service.go:46-63 | A repository error is returned with nothing sent; otherwise one message carries one keyboard row per source, in repository order, each button labelled with the name and carrying "source_add:<id>"; the result is nil even if the send fails |
| `Service.CmdListSource` | internal/bot/service.go:67-94 | A repository error is returned; otherwise the text computed from the stable name order is sent as MarkdownV2 to the chat and the send's error returned |
| `Service.SourceListTextNamesGreatest` | internal/bot/service.go:76-83 | The text is "" for no sources; otherwise it is the count line followed by the name (one trailing backslash trimmed) of a source whose name no other exceeds |
| `Bot.ErrorReply` | internal/bot/bot.go:83 | The error reply goes as plain text to the given chat: "internal error: " followed by the error's text |
| `Bot.WithErrorReply` | internal/bot/bot.go:80-86 | A handler error adds exactly one "internal error: <err>" message to the originating chat after the handler's own effects; no error adds nothing |
| `Bot.Bot.constructor` | internal/bot/bot.go:19-21 | A new bot has both handler maps nil |
| `Bot.Bot.RegisterCmd` | internal/bot/bot.go:23-28 | The command map exists afterwards; the name maps to the new view; every other name keeps its view; the callback map is untouched |
| `Bot.Bot.RegisterCallback` | internal/bot/bot.go:30-35 | The same for the callback map, leaving the command map untouched |
| `Bot.Bot.HandleMessage` | internal/bot/bot.go:70-87 | An unregistered command runs no view and sends nothing; a registered one runs its view, followed by the error reply rule |
| `Bot.Bot.HandleCallback` | internal/bot/bot.go:89-106 | The callback is routed by the data before its first ':'; an unregistered prefix is ignored; a registered one runs, followed by the error reply rule |
| `Bot.Bot.HandleUpdate` | internal/bot/bot.go:54-68 | The message handler runs when there is a message, the callback handler when there is a callback, both in that order when there are both, nothing otherwise |
| `Bot.CallbackSplitNeverEmpty` | internal/bot/bot.go:91-94 | Splitting callback data on ':' always yields at least one piece, so the zero-pieces branch is dead |
| `Bot.PressAddSourceButton` | internal/bot/bot.go:95-105 | Through the router, a menu button press adds the subscription (chat, id), sends the confirmation and, if that send fails, exactly one error reply |
| `Bot.PressButtonWithExtraColon` | internal/bot/service.go:100-103 | Data "source_add:" with a second ':' reaches the callback, adds no subscription and draws exactly the "invalid callback data" error reply |
| `GoStrings.Split` | internal/bot/service.go:100 | `strings.Split`: at least one piece; the first is the longest colon-free prefix; a single piece exactly when the string has no separator |
| `GoStrings.IndexOf` | internal/bot/bot.go:91 | The position of the first separator, or the length of the string if there is none |
| `GoStrings.SplitFirstPiece` | internal/bot/bot.go:91-95 | The first piece of a split is the text before the first separator |
| `GoStrings.SplitJoin` | internal/bot/service.go:100 | Joining the pieces with the separator gives back the string |
| `GoStrings.SplitPiecesHaveNoSeparator` | internal/bot/service.go:100-101 | No piece contains the separator, and there is one piece more than there are separators |
| `GoStrings.SplitNoSeparator` | internal/bot/service.go:100 | A string without the separator splits into itself alone |
| `GoStrings.SplitAtFirstSeparator` | internal/bot/service.go:100 | Splitting a + sep + b, with a free of sep, gives a followed by the pieces of b |
| `GoStrings.TrimSuffix` | internal/bot/service.go:80 | `strings.TrimSuffix`: one copy of the suffix is removed when present; otherwise the string is unchanged |
| `GoStrings.LessIrreflexive` | internal/bot/service.go:74 | Go's string `<` is irreflexive |
| `GoStrings.LessTransitive` | internal/bot/service.go:74 | Go's string `<` is transitive |
| `GoStrings.LessTotal` | internal/bot/service.go:74 | Any two distinct strings are ordered by `<` one way or the other |
| `GoStrings.LessAsymmetric` | internal/bot/service.go:74 | Go's string `<` is asymmetric |
| `Strconv.Atoi` | internal/bot/service.go:104 | A successful parse is a 64-bit integer; a failure names "Atoi" and the input |
| `Strconv.AtoiFormatInt` | internal/bot/service.go:104 | `Atoi` reads back the decimal text of every 64-bit integer |
| `Strconv.AtoiEmpty` | internal/bot/service.go:104-106 | `Atoi("")` fails with a syntax error |
| `Strconv.FormatInt` | internal/bot/service.go:56 | The `%d` text of an integer is never empty |
| `Strconv.FormatIntDigitsOnly` | internal/bot/service.go:56 | The `%d` text of an integer contains only digits and '-', so no ':' |
| `Strconv.NatDigitsValue` | internal/bot/service.go:56 | The decimal digits written for a natural number read back as that number |
| `Strconv.DigitRunOfDigits` | internal/bot/service.go:104 | The leading run of digits of an all-digit string is the whole string |
| `Fmt.Sprintf0` | internal/notifier/notifier.go:60-62 | `fmt.Sprintf` with no arguments returns a format free of '%' unchanged |
| `Fmt.ParseNum` | internal/notifier/notifier.go:60-62 | Go's `parsenum`: reading never passes `end`; when it stops before `end` it stopped at a non-digit, and a digit counts as seen exactly when one was seen before or reading moved |
| `Fmt.ArgNumber` | internal/notifier/notifier.go:60-62 | An argument index is attempted exactly when a `[` stands there, and then reading moves past it; otherwise nothing is consumed |
| `Fmt.Sprintf0MissingOperand` | internal/notifier/notifier.go:60-62 | A letter verb with no operand prints `%!v(MISSING)` and the format goes on after it |
| `Fmt.Sprintf0StarWidth` | internal/notifier/notifier.go:60-62 | `%*d` prints `%!(BADWIDTH)%!d(MISSING)` |
| `Fmt.Sprintf0ArgIndex` | internal/notifier/notifier.go:60-62 | `%[1]d` prints `%!d(BADINDEX)` |
| `Fmt.Sprintf0HugeWidth` | internal/notifier/notifier.go:60-62 | A width past 10^6, as in `%12345678d`, prints `%!(NOVERB)` and drops the rest of the format |
| `Fmt.Sprintf0EscapedPercent` | internal/notifier/notifier.go:60-62 | "%%" in the format comes out as a single '%' |
| `SourceSort.SortByName` | internal/bot/service.go:73-75 | The sort keeps the number of sources; its order properties are the lemmas below |
| `SourceSort.SortByNameIsTheStableSort` | internal/bot/service.go:73-75 | The insertion sort is a stable sort by name, and any stable sort by name of the same sources equals it; it is a permutation of its input |
| `SourceSort.SortByNameSorted` | internal/bot/service.go:73-75 | The result is in ascending name order |
| `SourceSort.SortByNameStable` | internal/bot/service.go:73-75 | For every name, the sources of that name keep their original relative order |
| `SourceSort.SortByNameMultiset` | internal/bot/service.go:73-75 | The result holds the same sources with the same multiplicities |
| `SourceSort.StableSortUnique` | internal/bot/service.go:73-75 | Two name-sorted sequences that agree on the sources of each name are equal |
| `SourceSort.InsertSorted` | internal/bot/service.go:73-75 | Inserting into a name-sorted sequence keeps it sorted |
| `SourceSort.InsertAt` | internal/bot/service.go:73-75 | The in-place inner step turns the array's first i+1 slots into the insertion of `a[i]` into the sorted prefix, with the rest unchanged |
| `SourceSort.SortSourcesByName` | internal/bot/service.go:73-75 | The array is sorted in place into exactly `SortByName` of its old contents |
| `Rows.Collect` | internal/repository/artcles.go:65-84 | A failed query or scan returns no rows and its error; with no fault every row comes back; a success is always a prefix of the rows, and the whole result when `rows.Err()` is checked |
| `Rows.ScanRows` | internal/repository/sources.go:30-46 | The `rows.Next`/`Scan` loop returns exactly what `Collect` describes |
| `Articles.InsertIfAbsent` | internal/repository/artcles.go:21-38 | One insert adds exactly the article's link to the table's links, keeps the old rows as a prefix, adds at most one row, and keeps links and ids unique |
| `Articles.InsertIfAbsentCases` | internal/repository/artcles.go:23-31 | A link already present leaves the table unchanged; a new link appends exactly one row with a fresh id, the source id, title, link and publication time, and a null posting time; categories are not stored |
| `Articles.InsertIfAbsentIdempotent` | internal/repository/artcles.go:23-27 | Adding the same article twice gives the same table as adding it once |
| `Articles.AddAll` | internal/repository/artcles.go:25-27 | Any sequence of inserts adds exactly the articles' links, keeps the old rows as a prefix, and never produces two rows with the same link or id |
| `Articles.AddAllIdempotent` | internal/repository/artcles.go:23-27 | Adding a batch a second time changes nothing |
| `Articles.AddAllPresent` | internal/repository/artcles.go:25-27 | A batch whose links are all present changes nothing |
| `Articles.AddAllLinksCommute` | internal/repository/artcles.go:25-27 | Two batches added in either order give the same set of links |
| `Articles.MarkPosted` | internal/repository/artcles.go:86-98 | Every row with the given id gets posting time `now`; every other row is unchanged; the size, links and id sequence stay the same; uniqueness is kept |
| `Articles.MarkPostedUnknownId` | internal/repository/artcles.go:88-91 | An id no row carries leaves the table unchanged |
| `Articles.JoinRow` | internal/repository/artcles.go:60-63 | A row joins the user's subscriptions if and only if its source is one the user follows, and yields only that row's article |
| `Articles.ArticleOf` | internal/repository/artcles.go:73-74 | An unposted-query article carries the row's id, source id, title, link and publication time, and no categories |
| `Articles.UnpostedFor` | internal/repository/artcles.go:58-64 | Every article of the join belongs to a source the user follows |
| `Articles.UnpostedForMembers` | internal/repository/artcles.go:58-64 | An article is in the unposted result if and only if some row with null posting time, whose source the user follows, is that article |
| `Articles.PostedStaysPosted` | internal/repository/artcles.go:86-98 | No sequence of inserts and updates clears a posting time once every row with that id has one |
| `Articles.MarkedNeverUnposted` | internal/repository/artcles.go:63-89 | After an article is marked posted, no later sequence of inserts and updates puts it back into any user's unposted articles |
| `Articles.ArticleWithoutId` | internal/repository/artcles.go:48-50 | A `GetAll` article carries the row's source id, title, link and publication time, with id 0 and no categories |
| `Articles.AllArticles` | internal/repository/artcles.go:40-56 | One article per row, in row order, each with id 0 because `id` is not selected |
| `Articles.GetAllResult` | internal/repository/artcles.go:40-56 | With no fault `GetAll` returns every row's article; any success carries a prefix of the rows, all with id 0 |
| `Articles.UnpostedResult` | internal/repository/artcles.go:58-85 | A successful unposted query returns exactly the unposted articles of the sources the user follows |
| `Articles.ArticleRepository.constructor` | internal/repository/artcles.go:15-17 | The repository starts on the given well-formed table |
| `Articles.ArticleRepository.Add` | internal/repository/artcles.go:21-38 | The database error is returned unchanged and the table is left as it was; otherwise the insert-if-absent is applied and nil returned |
| `Articles.ArticleRepository.GetAll` | internal/repository/artcles.go:40-56 | The result is the rows without ids, read through a loop that does not check `rows.Err()` |
| `Articles.ArticleRepository.GetAllNotPostedByUserSources` | internal/repository/artcles.go:58-85 | The result is the unposted join for the user, read through a loop that checks `rows.Err()` |
| `Articles.ArticleRepository.MarkAsPosted` | internal/repository/artcles.go:86-98 | The database error is returned unchanged and the table is left as it was; otherwise the article's id is marked posted at `now` and nil returned |
| `Sources.Insert` | internal/repository/sources.go:17-26 | Every add appends one row with the next serial id and the name, feed url, priority and creation time, with no duplicate check |
| `Sources.SourceOf` | internal/repository/sources.go:36-38 | A scanned source carries the row's name, feed url, priority and creation time, with id 0 |
| `Sources.SelectAll` | internal/repository/sources.go:29-42 | One source per row, in row order, carrying name, feed url, priority and creation time |
| `Sources.SourcesHaveNoId` | internal/repository/sources.go:28-47 | A successful `Sources` returns every row, and every source it returns has id 0 |
| `Sources.MenuButtonsAllZero` | internal/bot/service.go:54-58 | Every menu button built from what `Sources` returns carries "source_add:0" |
| `Sources.PressingAnyMenuButtonSubscribesToZero` | internal/bot/service.go:104-109 | Pressing any of those buttons subscribes the chat to source 0 |
| `Sources.SourceRepository.constructor` | internal/repository/sources.go:13-15 | The repository starts on the given table |
| `Sources.SourceRepository.Add` | internal/repository/sources.go:17-26 | The database error is returned unchanged and the table is left as it was; otherwise the row is inserted and nil returned |
| `Sources.SourceRepository.Sources` | internal/repository/sources.go:28-47 | The result is the rows without ids, read through a loop that checks `rows.Err()`: a scan or iteration error returns no sources and that error |
| `Rss.NewRss` | internal/rss/rss.go:16-22 | The source's feed url, id and name are copied, and `Id()` returns that id |
| `Rss.CreateItem` | internal/rss/rss.go:39-46 | Title, categories, link and date are copied from the feed entry unchanged |
| `Rss.ItemsOf` | internal/rss/rss.go:31-35 | Exactly one item per feed entry, in feed order |
| `Rss.Fetch` | internal/rss/rss.go:24-37 | A failed load returns no items and the same error; a loaded feed returns its mapped entries, so an empty feed gives an empty list |
| `Fetcher.ToArticle` | internal/fetcher/fetcher.go:84-91 | The article carries the source's id and the item's title, link, categories and date |
| `Fetcher.ToArticles` | internal/fetcher/fetcher.go:81-91 | One article per item, in item order |
| `Fetcher.FirstFailure` | internal/fetcher/fetcher.go:92-94 | The index of the first failing `Add`: every earlier one succeeds and this one fails, or there is none |
| `Fetcher.Processed` | internal/fetcher/fetcher.go:80-98 | After `processItems` the table gained exactly the links of the items before the first failing `Add`, kept its old rows, and stays well formed |
| `Fetcher.AllFetched` | internal/fetcher/fetcher.go:51-64 | Fetching the sources in turn keeps every old row in place and keeps the table well formed |
| `Fetcher.ProcessError` | internal/fetcher/fetcher.go:92-97 | `processItems` returns nil if and only if no `Add` fails |
| `Fetcher.Fetcher.constructor` | internal/fetcher/fetcher.go:27-29 | The fetcher writes to the given article repository |
| `Fetcher.Fetcher.ProcessItems` | internal/fetcher/fetcher.go:80-98 | The articles before the first failing `Add` are added in order, and nothing after; the first failure's error is returned (nil if none); the table stays well formed |
| `Fetcher.Fetcher.FetchSource` | internal/fetcher/fetcher.go:66-78 | The source's contribution is added: nothing when its feed fails to load, otherwise its items up to the first failing `Add` |
| `Fetcher.Fetcher.Fetch` | internal/fetcher/fetcher.go:51-64 | Each hard-coded source is fetched once, in the chosen order, and nil is returned whatever happened |
| `Fetcher.FetchRunsBothSources` | internal/fetcher/fetcher.go:52-55 | Any run order processes exactly the sources with ids 1 and 2, in one order or the other |
| `Fetcher.ProcessFromIsProcessed` | internal/fetcher/fetcher.go:81-97 | The item loop, read step by step, ends in the table and error that `Processed` and `ProcessError` describe |
| `Fetcher.ProcessedArticles` | internal/fetcher/fetcher.go:84-91 | Every article added carries the source id and the item's title, link, categories and date |
| `Fetcher.ProcessNothing` | internal/fetcher/fetcher.go:81-97 | An empty item list adds nothing and returns nil |
| `Fetcher.FailedSourceAddsNothing` | internal/fetcher/fetcher.go:70-74 | A source whose feed fails to load adds nothing |
| `Fetcher.ProcessTwice` | internal/fetcher/fetcher.go:81-95 | After one pass in which every `Add` succeeded, a second pass over the same items leaves the table unchanged, whatever its `Add` calls report |
| `Fetcher.FetchedLinks` | internal/fetcher/fetcher.go:58-62 | After `Fetch` the table's links are the old links plus the links both sources contributed |
| `Fetcher.FetchLinksOrderIndependent` | internal/fetcher/fetcher.go:58-62 | The set of links after `Fetch` does not depend on the order in which the two sources run, failures included |
| `Fetcher.FetchedPairLinks` | internal/fetcher/fetcher.go:58-62 | Running two sources in turn adds the links of both |
| `Notifier.ArticleText` | internal/notifier/notifier.go:60-62 | The message text is the title whenever the title has no '%' |
| `Notifier.Broadcast` | internal/notifier/notifier.go:63-74 | One message per subscriber, in subscriber order, addressed to that subscriber |
| `Notifier.BroadcastReachesEachSubscriber` | internal/notifier/notifier.go:63-74 | The recipients are exactly the subscribers, each as often as listed, and every message carries the same text |
| `Notifier.Notifier.constructor` | internal/notifier/notifier.go:22-24 | The notifier holds the given interval, subscribers and articles, with channel id 0 |
| `Notifier.Notifier.Batch` | internal/notifier/notifier.go:46-55 | Nothing for an empty article list; otherwise one message per subscriber, message i to subscriber i, each with the first article's text |
| `Notifier.Notifier.Send` | internal/notifier/notifier.go:57-78 | Every subscriber gets the article's message, in subscriber order, and nil is returned |
| `Notifier.Notifier.Notify` | internal/notifier/notifier.go:46-55 | An empty list sends nothing; otherwise only `articles[0]` is sent, to every subscriber; the result is always nil |
| `Notifier.Notifier.Start` | internal/notifier/notifier.go:26-44 | The first cycle and one per tick each send the same batch, since `Notify` neither fails nor changes the list; the cancellation error is returned at the end |
| `Notifier.RepeatedBatch` | internal/notifier/notifier.go:34-43 | Message i of every cycle is message i of the first: the same article to the same subscriber |

## Left out

- `main.go` is not part of this model: process wiring, environment variables, signal handling, and its own stub update loop.
- `fetcher/fetcher.go` is not part of this model. It is an older copy of the fetcher that only prints articles.
- `internal/config/config.go` is not part of this model: reading and decoding a YAML file.
- `internal/repository/users.go` and `internal/repository/subscription.go` are not part of this model. A view's calls on them are the `AddTgUser` and `AddSubscription` effects, with their outcomes as parameters.
- `loadFeed` and network access through the RSS library: the loaded feed, or the load error, is a parameter of `Rss.Fetch`.
- The `Start` loops of the bot and the fetcher: timers and context cancellation. `Notifier.Notifier.Start` is kept without its ticker: the number of ticks before cancellation and the cancellation's error are parameters.
- Goroutines and WaitGroups are modelled as sequential runs. `Fetch` runs its sources one after the other, in an order chosen by the caller. `Send` sends in subscriber order.
- Panic recovery in `handleUpdate`: a handler here cannot panic.
- The Telegram API: message and keyboard construction are records; `bot.Send` is an effect whose error is a parameter; parse modes other than the MarkdownV2 flag are not modelled.
- `Message.Command()`: the command name is a field of the message.
- Log output is not modelled.
- `time.Now()` is a parameter. `.UTC()` changes only the location, not the instant, so it is the identity here.
- Go's `%v`/`%s` rendering of errors: an error's text is a fixed function of the error value.
- `strconv.Quote` in `Atoi` error texts only wraps the input in quotes; escaping of special characters is not modelled.
- `fmt.Sprintf` is modelled only for a format with no operands, which is the only way `Send` uses it. Verbs are read as Unicode code points, as Go decodes them; a title that is not valid UTF-8 is not modelled, since a Dafny string holds only Unicode scalar values.
- A failed send in `Send` is only logged, so send outcomes are not parameters of the notifier.
- The database:
  - Each statement is atomic, and statements never interleave.
  - The order that the unposted join returns its rows in is not fixed by SQL. The model fixes it: table order, then subscription order.
  - A failing statement changes nothing.
  - New rows take the next value of a serial counter.
- `Articles.InsertIfAbsent`: when the link is already present, the existing row is kept and the serial counter does not advance.
- `Rows.Collect`: a scan failure at or after the last row reads as no fault.
- `Sources.SourcesHaveNoId`: the model keeps the missing `id` column as the code has it and does not correct it.
- The property "adding a source's articles to a table that lacks their links adds one row per distinct link" is not proved. Only the link-set form, `Articles.AddAll`, is.
