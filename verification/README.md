# CRAWJU buy bot: classification core

A Dafny model of the part of the CRAWJU buy bot that decides, from raw
Cardano ledger records, whether a transfer of the tracked token is an
exchange purchase. It covers:

- the venue detector `isDexTransaction` (module `Venue`);
- the token-flow classifier `analyzeTransaction` and the buy/sell cascade (module `Flow`);
- the debug report's notify verdict (module `Flow`);
- the deployed bot's `getTokenAmount` and buyer-ADA estimate (module `Purchase`);
- one tick of the monitoring loop with its watermark (module `Monitor`);
- the bounded retry of `makeRequest` (module `Retry`);
- `formatNumber` (module `Format`).

Shared record types live in `Ledger`:

- `Asset` is a `{unit, quantity}` pair;
- `TxEntry` is one UTXO input or output;
- `Utxos` is the record of one transaction.

A unit belongs to the tracked token when it is non-empty and contains the
policy id as a substring. Entry quantities follow the source's loops:

- the venue/user split and `getTokenAmount` use the quantity of the LAST
  matching asset (`LastQuantity`);
- the classifier's `inputTokens`/`outputTokens` add EVERY match (`SumQuantity`).

Everything is a pure function over immutable values. The classifier is also
written as the source's loops (`Flow.AnalyzeTransaction`) and proved equal to
the functional reference `Flow.Classify`.

The following are parameters of the model:

- the tracked policy id;
- the venue (Splash) address;
- `maxRetries`;
- the fetched batch of transfer ids;
- the per-transaction UTXO lookup;
- the outcome of each HTTP attempt.

A metadata payload's lowercased JSON rendering is given as the `text` field
of `Venue.Payload`. For string payloads, the raw string is kept as well for
the label-0 sentinel test.

Where a natural reading and the code differ, the model follows the code:

- The deployed loop (index.js) never calls `isDexTransaction` or
  `analyzeTransaction`. It notifies every processed transaction whose
  `getTokenAmount` is positive. `Monitor.Tick` models that. The venue-gated
  verdict (`Flow.Conclude`) is the debug script's.
- "A label-674 entry mentioning splash yields Splash" holds only when no
  earlier metadata entry reached a verdict. `Venue.EarlierEntryPreemptsSplash`
  exhibits the exception.
- The deployed bot does not fetch metadata. Only the debug script does.

## Model

| member | source | states |
|---|---|---|
| `Ledger.LastQuantityIsLast` | debug_transaction.js:124-131 | an entry's per-entry quantity is 0 when no asset matches, else the quantity of the last matching asset |
| `Ledger.SumQuantity` | debug_transaction.js:126-130 | the every-match sum is at least the last-match quantity |
| `Ledger.SumIsLastWhenSingle` | debug_transaction.js:126-130 | with at most one matching asset, the every-match sum equals the last-match quantity |
| `Venue.FirstRow` | debug_transaction.js:59-70 | the name returned is that of the first table row with a pattern in the text; None iff no row matches |
| `Venue.EntryRule` | debug_transaction.js:50-91 | label '674' with "splash" gives Splash; label '0'/0 decides iff the raw payload is a sentinel, and only as Splash; any other label decides iff it is truthy and its text has splash/dex/swap, and is then named 'Splash' iff "splash" occurs, else 'Unknown DEX'; a falsy label other than 0 never decides |
| `Venue.AddressFallback` | debug_transaction.js:96-109 | Splash iff UTXOs are present and some input or output address is the venue's, else {false, ''} |
| `Venue.Detect` | debug_transaction.js:45-110 | isDex false implies an empty name; isDex true implies one of the six known venue names |
| `Venue.FirstVerdictWins` | debug_transaction.js:47-93 | the first entry that reaches a verdict decides the result whatever follows it |
| `Venue.FallbackWhenSilent` | debug_transaction.js:95-109 | when no entry reaches a verdict, the result is the address fallback's |
| `Venue.DetectIff` | debug_transaction.js:45-110 | a venue is detected iff some entry reaches a verdict or some UTXO address is the venue's |
| `Venue.Label674SplashWins` | debug_transaction.js:50-56 | a label-'674' entry mentioning splash, preceded only by silent entries, yields {true, 'Splash'} |
| `Venue.Label674Table` | debug_transaction.js:59-70 | a label-'674' entry without splash is named by the first matching table row; with no row matching the scan goes on |
| `Venue.NumericLabel674IsGeneric` | debug_transaction.js:84-90 | a numeric 674 label goes through the generic keyword rule, named Splash iff "splash" occurs, else 'Unknown DEX' |
| `Venue.EarlierEntryPreemptsSplash` | debug_transaction.js:48-91 | an earlier generic "dex" entry wins over a later label-'674' splash entry |
| `Flow.Tally` | debug_transaction.js:123-166 | a side's venue and user counters together never exceed its total |
| `Flow.TallyNoToken` | debug_transaction.js:123-166 | a side with no tracked unit contributes zero to all three counters |
| `Flow.TallyIgnoresVenue` | debug_transaction.js:133-166 | when no entry has a positive per-entry quantity, the counters do not depend on the venue address |
| `Flow.TallyTotalIsTotalOver` | debug_transaction.js:123-154 | a side's total is the sum of every tracked asset's quantity over all its entries |
| `Flow.TallySplitsTotal` | debug_transaction.js:123-166 | when no entry holds two tracked units, venue plus user equals the total |
| `Flow.CountersOf` | debug_transaction.js:115-166 | the six counters of a transaction are consistent: each side's venue and user parts fit in its total |
| `Flow.Decide` | debug_transaction.js:169-214 | buy or sell carries a positive amount and unknown carries 0; a buy's amount is bounded by the user or total outputs, a sell's by the user or total inputs |
| `Flow.Classify` | debug_transaction.js:113-226 | the result is unknown iff its amount is 0, its counters are consistent, and its input and output totals are the every-match sums |
| `Flow.ScanAssets` | debug_transaction.js:124-131 | the inner asset loop leaves the last matching quantity and the sum of all matching quantities |
| `Flow.TallySide` | debug_transaction.js:123-143 | the outer loop over one side computes the tally of that side |
| `Flow.AnalyzeTransaction` | debug_transaction.js:113-226 | the loop program equals the functional classifier, and unknown holds iff the amount is 0 |
| `Flow.CascadePriority` | debug_transaction.js:176-191 | venue-to-user is a buy of the user outputs; otherwise user-to-venue is a sell of the user inputs; then no-inputs is a buy; user inputs with no user outputs are always a sell of the user inputs |
| `Flow.EqualUserSidesNoFallthrough` | debug_transaction.js:192-203 | equal positive user counts with no venue movement give unknown with 0, whatever the totals |
| `Flow.UserNetChange` | debug_transaction.js:192-202 | with both user sides positive, the call is a buy or sell of the user's net difference |
| `Flow.TotalDifference` | debug_transaction.js:203-214 | with no user input and neither buy rule firing, the call is a buy of output minus input, a sell of input minus output, or unknown with 0 when they balance |
| `Flow.NoTokenIsUnknown` | debug_transaction.js:203-214 | a transaction with no tracked unit anywhere is unknown with amount 0 |
| `Flow.FreshDistributionIsBuy` | debug_transaction.js:184-187 | with no tracked input, a positive user receipt is a buy of exactly that amount |
| `Flow.UserSellsAll` | debug_transaction.js:180-191 | user inputs with no user outputs are a sell of all user inputs, whatever the venue counters |
| `Flow.Conclude` | debug_transaction.js:336-344 | a notification is reported iff a venue was detected and the type is buy; "not a DEX" iff no venue |
| `Flow.NotifiedBuyIsPositive` | debug_transaction.js:336-337 | a reported notification is at a venue, and is a buy with a positive amount |
| `Purchase.PurchaseAmounts` | index.js:101-122 | holds exactly the token quantities of outputs carrying lovelace and a positive tracked quantity |
| `Purchase.BuyerPayments` | index.js:187-206 | holds exactly the lovelace of inputs with lovelace and no tracked unit |
| `Purchase.MinOf` | index.js:125 | the result is a member of the list and no greater than any member |
| `Purchase.MaxOf` | index.js:211 | the result is a member of the list and no smaller than any member |
| `Purchase.TokenAmount` | index.js:98-126 | 0 iff no output qualifies; otherwise equals one qualifying output's quantity and is at most every one of them |
| `Purchase.EstimateAda` | index.js:186-235 | with a pure-ADA input, the maximum such lovelace; otherwise input lovelace minus output lovelace, unclamped |
| `Monitor.Unseen` | index.js:167-171 | the processed ids are a prefix of the batch that avoids the watermark and stops only at it |
| `Monitor.NoticeFor` | index.js:173-250 | a transaction is notified iff its records were fetched and its token amount is positive; the notification carries its hash, `getTokenAmount` and the buyer-ADA estimate |
| `Monitor.Notices` | index.js:167-251 | every notification belongs to a processed id, and every processed buy is notified |
| `Monitor.Tick` | index.js:154-261 | a failed or empty fetch changes nothing; otherwise the unseen prefix is processed and the watermark becomes the newest id, regardless of per-transaction lookups; the notifications are exactly those of the processed buys, in order |
| `Monitor.WatermarkStopsWalk` | index.js:167-171 | a watermark first met at index i processes exactly the first i ids |
| `Monitor.AbsentWatermarkProcessesAll` | index.js:167-171 | a watermark absent from the batch processes the whole batch |
| `Monitor.RerunIsQuiet` | index.js:161-256 | re-running a tick on the same batch processes and notifies nothing and keeps the watermark |
| `Monitor.ThreeTransferExample` | index.js:161-256 | batch [h1,h2,h3] with watermark h2 processes only h1 and moves the watermark to h1; rerunning processes nothing |
| `Retry.Request` | index.js:51-69 | the attempt count is bounded; all but the last attempt failed; the response is the last attempt's; an error only after the bound is reached |
| `Retry.MakeRequest` | index.js:51-69 | at most maxRetries+1 calls; success iff some call within the bound succeeds, and then it is the first success; else maxRetries+1 failures and the last error |
| `Retry.SucceedsAfterFailures` | index.js:58-65 | k failures then a success within the bound return that success after k+1 calls |
| `Format.Decimal` | index.js:94 | `toString` gives a non-empty digit string without a leading zero (0 itself is exactly `"0"`) that reads back as the number |
| `Format.InsertCommas` | index.js:94 | the comma-inserted string begins with the input's first character |
| `Format.ShortHasNoComma` | index.js:94 | up to three digits get no comma |
| `Format.InsertAcrossSeam` | index.js:94 | appending a non-empty multiple of three digits adds one comma at the seam and keeps the commas on the left |
| `Format.CommasGroupFromTheRight` | index.js:93-95 | the regular expression's commas equal grouping in threes from the right |
| `Format.StripInsertCommas` | index.js:93-95 | deleting the commas gives back the input |
| `Format.CommaCount` | index.js:93-95 | a string of n digits gets (n-1)/3 commas |
| `Format.FormatNumber` | index.js:93-95 | `formatNumber(n)` starts with n's leading digit, strips back to n's digits, and groups in threes from the right |
| `Deployment.ClassifyAsWritten` | debug_transaction.js:133-166 | the as-written classifier throws iff some entry holds a positive tracked quantity and no venue address is configured; with an address it is the classifier for that address |
| `Deployment.ShippedConfigBreaksClassifier` | debug_transaction.js:133-158 | with the shipped configuration, classification throws iff some entry holds a positive tracked quantity |
| `Deployment.ShippedConfigFailsOnTransfer` | config.js:8-13 | a 500-token transfer to a user makes the as-written classifier throw under the shipped configuration |

## Findings

| source | as written | input that shows it | evidently intended | confidence | as-written member | corrected member |
|---|---|---|---|---|---|---|
| debug_transaction.js:135 | reads `config.cardano.dexAddresses.splash`, but config.js:8-13 defines no `dexAddresses`, so the read throws a TypeError | any transaction with a positive tracked quantity in some input or output, e.g. one output of 500 tokens | compare against a configured Splash venue address | high (not executed) | `Deployment.ShippedConfigBreaksClassifier` | `Flow.AnalyzeTransaction` |

The same read occurs in the detector's address fallback (debug_transaction.js:104) and in the
report's per-output loop (debug_transaction.js:295), which runs before the classifier is called at
debug_transaction.js:325; so under the shipped configuration the report fails for any transaction
with an output before classification starts. The model takes the venue address as a parameter
everywhere (`Venue.Detect`, `Flow.AnalyzeTransaction`).

## Left out

- Discord client, embeds, channel sends and startup messages: notification transport. A notification in `Monitor.Tick` is the send the bot attempts; a missing channel or a failed send is not modelled.
- HTTP health server, signal handlers, login and the cron schedule: process lifecycle and concurrency. Overlapping ticks are not modelled; one tick is a pure transition.
- axios calls, timeouts, the retry delay and `Promise.all`: network I/O. Only the attempt counting of `makeRequest` is kept. The debug script's own client, which has no retry, is not modelled.
- `formatADA` and the ADA/CRAWJU totals of the debug report: floating-point division and `toFixed`.
- `debugTransaction`'s console output and command-line entry, apart from the verdict at debug_transaction.js:336-344.
- `JSON.stringify(...).toLowerCase()`: abstracted as the given `text` of a payload. Nothing ties `text` to `raw` for string payloads.
- `parseInt`: quantities are naturals. JavaScript number precision above 2^53 is not modelled.
- Format.Decimal: does not model JavaScript's exponent notation for numbers of 10^21 and above.
- Purchase.EstimateAda, Flow.Classify, Flow.AnalyzeTransaction: the source iterates `amount` unguarded in the classifier's input and output loops (debug_transaction.js:126, 149) and in the buyer-ADA inputs and fallback outputs (index.js:193, 218, 226). An entry without an `amount` list throws there, which skips that transaction. The model gives every entry an `amount` list, empty when missing, so it does not model these throws. `getTokenAmount` guards its loop and skips such outputs, and the model agrees.
- The transfer-list limit of 5 (index.js:159): the batch is whatever the fetch returned.
- Transaction details (hash, block time): fetched by the bot but used only for the notification embed.
- test.js: live network smoke tests and configuration checks.
