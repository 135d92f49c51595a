# Nerd Planet newsletter dispatcher — Dafny model

A model of the daily newsletter job of the Nerd Planet send server. Once a day,
at 06:55 local time, the server loads every subscription, and for each one:

- builds a filter from the subscriber's watermark (`Published`) and four optional
  preference arrays (companies, company sizes, job tags, skill tags);
- selects at most five new feed items;
- renders them into an HTML mail;
- waits until 07:00 and sends the mail;
- stamps a new watermark.

Every subscriber yields one `PublishResult` (name and item count). After all
workers finish, a Slack summary lists one line per result. The prototype program
(`main.go`) has an earlier form of the same loop: a filter without the watermark
clause, strictly sequential processing, and an unconditional watermark update.

The model is functional. Subscriptions, clauses, parameters and outcomes are
immutable datatypes. The database, the template engine and the SMTP client are
replaced by their abstract results (`External`). Timestamps are integer seconds of
local wall-clock time.

Modules:

- `Strings`: Go's `strings.Join` and `strings.Split`, and the round trip between them.
- `Decimal`: `strconv.FormatInt(v, 10)` and a parser that reads it back.
- `PgArray`: `getArrToString`, the PostgreSQL array literal, and its parser.
- `Criteria`: the `where`/`param` builders of both programs.
- `Matching`: which feed items a built query selects, compared with the items the
  subscriber asked for.
- `Schedule`: the trigger and release constants, the release time and the wait.
- `External`: results of the database, template and SMTP calls.
- `Orders`: arrival orders over positions, and reading a sequence along one.
- `Dispatch`: `publish`, the fan-out and join, and the summary.
- `Prototype`: the loop of `main.go`.

## Model

| member | source | states |
|---|---|---|
| Dispatch.DisplayName | cmd/server/main.go:138-142 | The name is `*Name` when set. Otherwise it is the prefix of the email before its first `@`, or the whole email when there is no `@`. |
| Decimal.FormatInt | cmd/server/main.go:240 | The rendering is never empty. It starts with `-` exactly when the value is negative, and the rest is a non-empty run of decimal digits. |
| PgArray.Elements | cmd/server/main.go:238-241 | One rendering per array element, in the array's order, each the base-10 rendering of that element. |
| Strings.Split | cmd/server/main.go:141 | There is one piece more than there are separators. The first piece is a separator-free prefix of the input that ends at the input's end or just before its first separator. |
| Strings.JoinCount | cmd/server/main.go:243 | Joining separator-free parts with a one-character separator puts exactly one separator between neighbours and none elsewhere: n - 1 for n > 0 parts, none for no parts. |
| Strings.SplitJoin | cmd/server/main.go:243 | Splitting the join of one or more separator-free parts gives back exactly those parts, in order. |
| Decimal.FormatNat | cmd/server/main.go:240 | The digits of a number are canonical: at least one digit and no leading zero, except for 0 itself. |
| Decimal.ParseFormatInt | cmd/server/main.go:240 | Every integer's base-10 rendering (minus sign for negatives) reads back as the same integer. |
| PgArray.Format | cmd/server/main.go:237-244 | The literal starts with `{` and ends with `}`. It is exactly `{}` when the array is empty. |
| PgArray.ParseFormat | cmd/server/main.go:237-244 | Reading the literal back as a PostgreSQL integer array gives exactly the original elements, in order. |
| PgArray.CommaCount | cmd/server/main.go:237-244 | A literal of n > 0 elements has exactly n - 1 commas. An empty array's literal has none. |
| Criteria.Build | cmd/server/main.go:149-170 | The clause and parameter lists have equal length, namely 1 plus the number of non-empty preference arrays. The first clause is `? <= item_published` bound to `Published`. Clauses follow the fixed order company, size, job, skill, and no two clauses are equal. Each optional clause is present exactly when its array is non-empty, and it is bound to its own array, or to that array's literal for the overlap clauses. |
| Criteria.BuildPrototype | main.go:60-78 | Same shape as `Build` without a watermark clause. The length is the number of non-empty arrays, and no preferences gives the empty clause list. |
| Criteria.BuildExtendsPrototype | cmd/server/main.go:149-170 | The server filter is the prototype filter with the watermark clause and its parameter prepended. |
| Criteria.PreferenceClausesShape | cmd/server/main.go:152-170 | The optional clauses appended are one per non-empty array, in the fixed order, and never the watermark clause. |
| Matching.BuildSelectsWanted | cmd/server/main.go:149-178 | The server filter keeps an item exactly when it is published no earlier than the watermark and satisfies each non-empty preference. The preferences are membership for company and size, and tag overlap for job and skill. |
| Matching.PrototypeSelectsPreferred | main.go:60-80 | The prototype filter keeps an item exactly when it satisfies each non-empty preference, whatever its publication time. |
| Schedule.ReleaseTime | cmd/server/main.go:89 | The release time falls on the same calendar day as the trigger, at 07:00:00. |
| Schedule.ReleaseAfterTrigger | cmd/server/main.go:30-35 | When fired in its 06:55 minute, the job's release time is strictly later and at most five minutes ahead. |
| Schedule.WaitUntil | cmd/server/main.go:219 | The wait ends at the later of the current time and the release time. It never ends before the release. |
| Dispatch.Publish | cmd/server/main.go:129-235 | The count is 0 when selection fails. Otherwise it is the matched rows capped at 5, and later failures do not reset it. A mail is attempted exactly when the count is positive and rendering succeeded, and never before the release time. The watermark is stamped exactly when selection succeeded and either nothing matched or both render and send succeeded. The stored row changes only when that stamp was saved, so a failed run repeats the same filter next time. A stored watermark never moves backwards while the clock is not behind it. |
| Dispatch.StoredWatermarkExcludesOldItems | cmd/server/main.go:149-150 | After a saved stamp, the next run's filter selects no item published before that stamp. |
| Dispatch.SentRunHidesEarlierItems | cmd/server/main.go:219-234 | When the stamp is read after the wait, a worker that mailed and saved its stamp leaves no item published before the release selectable by a later run, whether or not that item was among the five mailed. |
| Dispatch.SummaryLineReadsBack | cmd/server/main.go:113 | A summary line starts with the subscriber's name, and its count reads back from the text between the fixed middle and tail. |
| Dispatch.SummaryLineDistinguishesCounts | cmd/server/main.go:113 | For the same subscriber name, two summary lines are equal exactly when their counts are equal, so the line reports the count unambiguously. |
| Dispatch.PublishAll | cmd/server/main.go:101-110 | Exactly one outcome per loaded subscription, each from that subscription's own inputs and the shared release time. Each outcome reports the subscription's display name and at most five items, never sends before the release, and stores either that subscription's row unchanged or the same row with only its watermark set to that worker's stamp. No worker changes another's row. |
| Orders.Arrange | cmd/server/main.go:102-114 | Reading the results along any arrival order, where every index appears once, yields each result exactly once: the output is a permutation of the input, and its k-th element is the result at the k-th arrival. |
| Dispatch.Summarize | cmd/server/main.go:98-114 | The summary is the header followed by one line per result in arrival order. As a multiset, those lines equal the results' lines in load order, so each result is reported exactly once. Zero subscriptions gives only the header. |
| Dispatch.Run | cmd/server/main.go:85-119 | A load failure ends the run with no outcome. Otherwise every subscription gets one outcome, and no mail goes out before the day's 07:00 release. The summary is the header plus the lines of all outcomes, each exactly once, in some order. |
| Prototype.RunPrototype | main.go:53-93 | Subscriptions are handled in load order. Each handled one is stored with the new watermark whether or not anything matched. The first failed query or save panics: later rows are left unchanged, and the run finishes only when every call succeeds. |

`main.go:102-109` is a character-for-character copy of the server's
`getArrToString`. `PgArray.Format` models both copies.

## Left out

- Database access is left out because it runs in PostgreSQL: `db.Find`, the item
  query, and `db.Save`. The item query is an abstract result (`Matched(rows)` or
  an error), and `LIMIT 5` becomes `min(rows, 5)`. The projections
  `LEFT(item_description, 50)` and the thumbnail `CASE` are not modelled.
- The item order of the query is not modelled: the source has no `ORDER BY`.
- `main.go:80` chains `.Limit(10)` after `.Find(...)`, so it bounds nothing. It is
  not modelled.
- SMTP sending, message header assembly, `text/template` rendering, `NewConfig`/viper
  and `runtime.Caller` are foreign libraries or I/O. They appear only as abstract
  success or failure.
- The Slack `webhook` post is not modelled; its failure panics after the summary
  is built. `Dispatch.Run` ends at the summary lines.
- Goroutines, `sync.WaitGroup` and the buffered channel are modelled sequentially:
  one outcome per subscription in load order. The order in which results leave
  the channel is a parameter (any permutation).
- Every external call (the gorm queries, template rendering, `smtp.SendMail`, the
  `<-time.After` wait) is modelled as returning a result. The source sets no
  timeout on any of them, and one hung worker blocks `wg.Wait()`
  (cmd/server/main.go:109) forever, so no summary is built. `Dispatch.Run`'s
  one outcome per subscription holds only under this assumption.
- Prototype.RunPrototype: takes the already-loaded subscriptions. The load at
  main.go:47-49, which panics on failure, is not modelled.
- Go strings are UTF-8 byte sequences, while the model's `string` is a sequence of
  Unicode characters. Nothing here depends on the difference: the only separators
  split or joined on are the ASCII `@` and `,`, and the names, emails and Korean
  summary text are whole characters in both views.
- gocron scheduling and the `time.Local` override are not modelled. Every clock
  reading is a parameter, in integer seconds of Asia/Seoul local time (no DST).
- Prototype.RunPrototype: does not return the queries it issues. The query for
  each subscription is `Criteria.BuildPrototype`, whose meaning
  `Matching.PrototypeSelectsPreferred` states.
- The filter builder passes non-positive identifiers through unchanged
  (cmd/server/main.go:152-170); it validates nothing.
- A failed send returns before the watermark update (cmd/server/main.go:224-227),
  so the next run's filter keeps the same lower bound and the unsent items stay
  eligible; with `LIMIT 5` and no `ORDER BY`, that run may still pick a different
  five.
- The two clock readings of a worker (`readyAt`, when it starts waiting, and
  `finishedAt`, the stamp at cmd/server/main.go:230) are independent parameters.
  `Dispatch.SentRunHidesEarlierItems` relates them only under its stated ordering:
  the stamp is read after the wait. Under it, a worker that mailed and saved hides
  every item published before the release from later runs. That includes items
  published between its select and its stamp, and matched rows beyond the fifth,
  neither of which was mailed.
- The watermark clause is inclusive (`? <= item_published`). An item published
  exactly at the stamped instant would be selected again.
  `Dispatch.StoredWatermarkExcludesOldItems` is therefore stated only for items
  published strictly before the stamp.
