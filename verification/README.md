# tg-translator-azure: a Dafny model of the command core

The bot is a Telegram front end for a remote translation service. Every
incoming text goes to one `message` listener. The listener classifies the text
by prefix, first match wins, in this order: `/translate `, `/translate_to `,
`/help`, `/stats`, `/languages`, `/feedback `, `/top_languages`. It then runs
that command's handler. A translation handler calls the remote `detect` and
`translate` operations. When they succeed it replies with a result card and
records the translation in a single statistics record. That record holds a
total count and a counter per language code. `/top_languages` ranks the
counters and shows the five highest.

This project models that core and proves what it guarantees:

- `Commands`: the classifier `Classify` and the `/translate_to` parser. The parser
  splits the text on single spaces: the second piece is the code and the
  remaining pieces, joined again, are the message.
- `Catalog`: the catalog of language codes, the check a `/translate_to` code
  must pass, and the `/languages` listing.
- `Usage`: the statistics record. `StatsStore` is a class whose
  `UpdateUsageStats` changes the record in place, as `updateUsageStats` does.
  `Recorded` is the function that specifies it, and the invariant is that the
  counters always sum to twice the total.
- `Ranking`: the sort by count behind `/top_languages`. It is stable and
  descending, and the first five entries are shown.
- `Reports`: the `/stats` and `/top_languages` replies, built line by line in
  loops.
- `FeedbackStore`: the append-only feedback log.
- `Bot`: `Handle`, a pure function that gives the effect of one text: the
  reply, the service calls in order, the statistics recording and the saved
  feedback. It is `Respond` applied to the classified command. The `Bot`
  class's `OnMessage` method runs the listener against the two stores and is
  proved to do what `Handle` says. It classifies the text and hands the
  command to `Run`, which runs the branch. `RunTranslate` and
  `RunTranslateTo` are the two translation branches, and `Answer` covers the
  commands that only reply.
- `Text`: the JavaScript built-ins these rely on: `startsWith`, `split(' ')`,
  `join(' ')`, string `+=` and the decimal rendering of a count.

The remote service is a `Translator` value. It holds two functions that
either return a result or fail (`None`). The system-statistics part of `/stats`
is a string parameter. The catalog is the sequence of codes in the catalog
file, in file order.

Three behaviours of the code are worth stating outright:

- Ties in `/top_languages` keep the record's insertion order.
  `Array.prototype.sort` is stable and the record's map iterates in insertion
  order. So the model keeps the insertion order of the counter keys (`order`),
  and `Ranking.SortIsStable` proves that ties stay in that order.
- `/feedback ` followed by nothing saves an empty message. No check rejects
  it, and the model does the same.
- The `/translate_to` check tests `langCodes[langCode]` for truthiness, which
  is not the same as catalog membership. See Findings.

## Model

| member | source | states |
|---|---|---|
| `Commands.Classify` | index.js:186-237 | The `/translate ` payload is the text minus its first 11 characters and the `/feedback ` payload is the text minus its first 10. A `/translate_to` text yields the code and message of `ParseTranslateTo`. |
| `Commands.ClassifyIsFirstMatch` | index.js:186-237 | The command chosen is the first prefix the text starts with, in the listener's order. A text that matches none of the prefixes is `Unknown`. |
| `Commands.FirstMatch` | index.js:186-236 | The reference for first-match-wins: the index of a matching prefix, with no earlier prefix matching. |
| `Commands.ParseTranslateTo` | index.js:197-199 | The code has no space in it. If the rest of the text has a space, the text equals `"/translate_to " + code + " " + message`. Otherwise it equals `"/translate_to " + code` and the message is empty. |
| `Commands.TranslateToRoundTrip` | index.js:196-199 | For any space-free code and any message, classifying `"/translate_to " + code + " " + message` gives back exactly that code and that message. |
| `Commands.TranslateToIsNotTranslate` | index.js:186-196 | A text that starts with `/translate_to ` is always the `/translate_to` command and never `/translate `. |
| `Commands.BarePrefixesAreUnknown` | index.js:186-237 | `/translate` and `/feedback` without their trailing space are invalid commands. |
| `Commands.HelpMatchesAnySuffix` | index.js:213 | Any text that begins with `/help`, such as `/helpme`, is the help command. |
| `Commands.DoubledSpaceGivesEmptyCode` | index.js:197-199 | A doubled space after `/translate_to` gives an empty code, and the rest of the text is the message. |
| `Commands.SingleTokenGivesEmptyMessage` | index.js:197-199 | A single token after the prefix is the code, with an empty message. |
| `Text.Split` | index.js:197 | `split(' ')` yields at least one piece and no piece contains a space. |
| `Text.JoinSplit` | index.js:197-199 | Joining the pieces of a split with single spaces gives back the original text. |
| `Text.SplitJoin` | index.js:197-199 | Splitting space-free pieces that were joined with single spaces gives back the pieces. |
| `Text.DecimalRoundTrip` | index.js:135-138 | A count in a reply is written in decimal digits, and reading those digits back gives the count. |
| `Catalog.IsSupportedAsWritten` | index.js:201 | Definition of the guard as written: a catalog code or a name every object inherits. `Catalog.GuardAdmitsInheritedName` and `Bot.InheritedNameReachesTranslator` state what it lets through. |
| `Catalog.GuardAdmitsInheritedName` | index.js:201 | The check as written accepts `constructor`, which is not a catalog code. |
| `Catalog.SupportedLanguages` | index.js:158-163 | The `/languages` reply is the header followed by one monospace line per catalog code, in catalog order. |
| `Catalog.ListingNamesEachCodeOnce` | index.js:160-162 | When catalog codes are distinct, each one appears on exactly one line and every line names a catalog code. |
| `Usage.StatsStore.constructor` | index.js:22-25 | A store with no record yet: `findOne` returns none. |
| `Usage.StatsStore.UpdateUsageStats` | index.js:101-110 | An absent record starts from total 0 and no counters. The total goes up by exactly 1. With distinct codes, `from` and `to` each go up by 1; with one code, it goes up by 2. A missing key counts as 0, every other counter is unchanged, and the sum invariant is kept. |
| `Usage.Recorded` | index.js:106-108 | Definition of one recording: the total plus one, then `from` and `to` each bumped, a missing key counting as 0. Its effect key by key is stated in `Usage.RecordedCounts`, the invariant in `Usage.RecordedConsistent`. |
| `Usage.RecordedConsistent` | index.js:106-108 | One recording keeps the counters summing to twice the total. |
| `Usage.RecordedCounts` | index.js:106-108 | Each counter's effect is stated key by key, and the key set gains exactly the two codes. |
| `Usage.RecordAllCounts` | index.js:101-110 | After N recordings the total has grown by N and the counters still sum to twice the total. |
| `Ranking.Entries` | index.js:174 | `[...languageCounts.entries()]`: one entry per key, in iteration order, each carrying that key's count. |
| `Ranking.TopEntries` | index.js:174-175 | Definition of `slice(0, 5)` of the sorted entries. Its properties are stated in `Ranking.TopEntriesRanking`. |
| `Ranking.SortByCount` | index.js:174 | The sorted entries are a permutation of the input, with counts non-increasing. |
| `Ranking.SortIsStable` | index.js:174 | For every count, the entries with that count keep their original order. |
| `Ranking.TopEntriesRanking` | index.js:174-175 | The ranking lists min(5, number of codes) entries. Each is a code of the record with its count, no code appears twice, and counts never rise. No code left out has a higher count than any code listed. |
| `Ranking.TopEntriesExample` | index.js:174-175 | Counts {es: 5, fr: 3, en: 8} are ranked en, es, fr. |
| `Reports.AppendCountLines` | index.js:175-177 | The loop appends exactly one line per entry, in order, after the given head. |
| `Reports.UsageReport` | index.js:132-140 | The `/stats` reply shows the total, or 0 when there is no record, then one line per counter in insertion order, then the system part. |
| `Reports.TopLanguagesReport` | index.js:167-178 | With no record the reply is exactly "No translation data available.", and that reply means there was no record. Otherwise the reply is the header followed by one line for each ranked entry. |
| `FeedbackStore.FeedbackLog.Save` | index.js:230-232 | A feedback entry is appended after all earlier ones. |
| `Bot.InvalidCommandIffNoPrefix` | index.js:236-237 | The reply is exactly the invalid-command message if and only if the text starts with none of the prefixes. That reply makes no call, records nothing and saves no feedback. |
| `Bot.TranslateToChecksCatalog` | index.js:201-207 | A code outside the catalog gets exactly the invalid-code message, with no call and nothing recorded. A catalog code leads to exactly one call, which translates into that code from "en". |
| `Bot.RecordOnlyOnSuccess` | index.js:186-212 | Statistics are recorded only when every service call succeeds: (detected, "en") for `/translate` and ("en", code) for `/translate_to`. A failed call gets the generic error reply and records nothing. Other commands record nothing and make no calls. |
| `Bot.FeedbackSavedOnlyForFeedback` | index.js:229-233 | Feedback is saved only for `/feedback `. What is saved is the text after the prefix, and the reply is the thank-you message. |
| `Bot.InheritedNameReachesTranslator` | index.js:201-207 | With the check as written, `/translate_to constructor …` reaches the service. With the catalog check it gets the invalid-code message and no call. |
| `Bot.TranslateExample` | index.js:186-192 | `/translate Bonjour le monde`, detected as French and translated to "Hello world", gives the result card, two calls and the recording (fr, en). |
| `Bot.TranslateEffect` | index.js:186-195 | Definition of the `/translate ` branch's effect. Its own contract only says that it saves no feedback; what it records and replies is proved in `Bot.RecordOnlyOnSuccess` and `Bot.TranslateExample`. |
| `Bot.TranslateToEffect` | index.js:196-212 | Definition of the `/translate_to ` branch's effect. Its own contract only says that it saves no feedback; the catalog check and the single call are proved in `Bot.TranslateToChecksCatalog`, and the recording in `Bot.RecordOnlyOnSuccess`. |
| `Bot.Respond` | index.js:186-238 | Definition: the effect of a classified command, one arm per branch of the listener. Its properties are proved through `Bot.Handle` in `Bot.InvalidCommandIffNoPrefix`, `Bot.RecordOnlyOnSuccess` and `Bot.FeedbackSavedOnlyForFeedback`. |
| `Bot.Handle` | index.js:182-238 | Definition: the effect of one text is `Respond` of its classified command. Its properties are stated by the `Bot` lemmas in this table, and `Bot.Bot.OnMessage` is proved against it. |
| `Bot.LanguagesListsEachCodeOnce` | index.js:158-163 | With the bot's catalog (whose codes are distinct, being the keys of one JSON object), the `/languages` reply lists each catalog code on exactly one line and nothing else. |
| `Bot.Bot.OnMessage` | index.js:182-238 | The reply and the calls are those of `Handle`. The statistics change only when `Handle` records a translation, and then exactly as `Recorded` says. The feedback log is unchanged unless the text is `/feedback `, and then exactly one entry is appended. |
| `Bot.Bot.Run` | index.js:186-238 | The same, for a command that is already classified, against `Respond`. |
| `Bot.Bot.RunTranslate` | index.js:186-195 | The calls are detect, then translate into English. The reply is the result card, or the generic error if either call fails. The statistics record (detected, "en") exactly when both calls succeed and are otherwise unchanged. |
| `Bot.Bot.RunTranslateTo` | index.js:196-212 | A code outside the catalog gets the invalid-code reply with no call. Otherwise one translate call from English is made. Success replies with the result card and records ("en", code). Failure replies with the generic error and leaves the statistics unchanged. |
| `Bot.Bot.Answer` | index.js:213-237 | The commands that only reply (`/help`, `/stats`, `/languages`, `/top_languages` and an invalid command) get the reply `ReplyOf` gives for the current record, and nothing changes. |

## Findings

| source | as written | input that shows it | evidently intended | confidence | as-written member | corrected member |
|---|---|---|---|---|---|---|
| index.js:201 | `!langCodes[langCode]` tests a property lookup on a plain object, so names inherited from `Object.prototype` count as supported codes | `/translate_to constructor hello` passes the check and is sent to the service as target `constructor` | only codes of the catalog pass; others get the invalid-code message | not executed; high (JavaScript property lookup follows the prototype chain) | `Bot.InheritedNameReachesTranslator` | `Bot.TranslateToChecksCatalog` |

The rest of the model uses the corrected check, `Catalog.IsSupported`, which
is catalog membership. `Catalog.IsSupportedAsWritten` is the check as written.

## Left out

- Telegram transport (polling, `bot.sendMessage`, chat ids). A reply is a returned value, and its `Markdown` or `Plain` constructor says whether the Markdown parse mode is set.
- Remote calls to the translation service (`detectLanguage`, `translateText`): request shapes, headers and the endpoint are not modelled. The service is a pair of functions that either return a value or fail.
- MongoDB persistence. The statistics record is an in-memory object and the feedback collection is an in-memory log. A failing `findOne` or `save` is not modelled: in the source these rejections are unhandled, and `updateUsageStats` is not awaited.
- `getSystemStats` and the system part of `/stats`: process metrics and floating-point `toFixed`. The part is passed in as a string.
- Loading the catalog file and the environment configuration. The catalog is given as a sequence of codes in file order. Enumeration order of integer-like keys is not modelled; language codes are not integer-like.
- Concurrency. Each message is handled to completion, so the read-modify-write race on the statistics record is not modelled.
- Messages without text. When `msg.text` is undefined the listener throws inside its async callback. The model takes the text as a string.
- The two Markdown templates, the result card `Replies.Stylish` (index.js:91-96) and the help text `Replies.HelpText` (index.js:214-223), are reproduced character for character, and nothing is proved about them.
- Markdown escaping of user text in the result card. The card is built as plain string concatenation (`Replies.Stylish`).
- The feedback timestamp and the sender's username come from the clock and the transport, so they are parameters of `OnMessage`.
- Counts are unbounded naturals. JavaScript numbers lose integer precision above 2^53, and that is not modelled.
