# Stock search: start/cancel toggle, batch fan-out and timeout decision

This project models the search handler of the StockAnalyzer window
(`Search_Click` in `StockAnalyzer.Windows/MainWindow.xaml.cs`), with WPF and
the task runtime taken out. The same button starts a search and cancels a
running one. The `cancellationTokenSource` field makes it a two-state
machine: it is null while the window is idle ("Search") and holds a source
while a search runs ("Cancel").

A search splits the query text on commas and spaces. It issues one
`GetStockPricesFor` per identifier, all on the same token, and races the
combined loads against a 120-second timer. If the timer wins, the token is
cancelled and the search fails with "Timeout!". If every load succeeds, the
flattened records are shown. If the batch faults or is cancelled, reading
`.Result` raises an exception, and Notes shows that exception's message.
In every case the `finally` block returns the window to idle.

The handler is split at its only `await` (line 80):

- `Session.SearchController.Click` is the synchronous part: either the
  cancel branch, or everything up to the race.
- `Session.SearchController.Complete` is the continuation. It takes the
  result of the race as an `Outcome` value: `TimeoutFirst`,
  `AllSucceeded(records per identifier)` or `Faulted(message)`, where
  `message` is the text of the exception that reading `.Result` raises.

Like the source, `Complete` goes through the shared field rather than the
source its own click created, and it clears the field unconditionally. Two
behaviours follow and are proved in `Scenarios`:

- A search's late timeout can cancel and reset a newer search.
- A timeout after the user has already cancelled calls `Cancel` on a null
  field. The resulting exception message is what Notes shows.

Modules:

- `Tokenizer`: `String.Split(',', ' ')` as a function. Its lemmas prove
  that splitting loses nothing (rejoining gives back the text), that it is
  the only split into separator-free tokens, and that the token count is
  the separator count plus one.
- `Flattening`: `SelectMany(x => x)`, with lemmas on order, blocks and
  membership.
- `Cancellation`: the `CancelSource` class, with a cancelled flag and a
  count of how often its registered callback has run.
- `Batch`: the launch loop, the `Outcome` of the race and the `Settle`
  decision that follows it.
- `Session`: the window's `SearchController` class, whose fields are the
  visible state. A ghost log records every value written to Notes.
- `Scenarios`: sequences of presses and completions, with what the window
  shows afterwards.

The model follows the code in these places, which may be unexpected:

- An empty query is not zero identifiers. `"".Split(',', ' ')` returns one
  empty string, so one fetch is issued for `""` (`Scenarios.EmptyQuery`,
  `Tokenizer.TokenizeSingle`).
- Only `','` and `' '` separate identifiers. Tabs and other whitespace do
  not.
- The `finally` block clears the field and resets the button with no
  guard, even when a manual cancel or a newer search has changed them.
- The cancel branch (lines 35-45) does not hide the progress indicator. It
  stays visible until the cancelled search's continuation runs.

## Model

| member | source | states |
|---|---|---|
| Tokenizer.Tokenize | StockAnalyzer.Windows/MainWindow.xaml.cs:58 | Split yields one identifier more than the text has commas and spaces, and no identifier contains either separator. |
| Tokenizer.RejoinTokenize | StockAnalyzer.Windows/MainWindow.xaml.cs:58 | Joining the identifiers with the separators found gives back the query text exactly: nothing is trimmed, dropped or reordered. |
| Tokenizer.TokenizeRejoin | StockAnalyzer.Windows/MainWindow.xaml.cs:58 | Any separator-free tokens joined by any commas and spaces split back into exactly those tokens and separators. So Split is the unique split, and it keeps empty and duplicate identifiers. |
| Tokenizer.TokenizeSingle | StockAnalyzer.Windows/MainWindow.xaml.cs:58 | A text without separators is one identifier, itself. The empty query is one empty identifier. |
| Tokenizer.TokenizeIdempotent | StockAnalyzer.Windows/MainWindow.xaml.cs:58 | Splitting any identifier again gives that identifier alone. |
| Flattening.Flatten | StockAnalyzer.Windows/MainWindow.xaml.cs:94-96 | The per-identifier lists one after another, in submission order (see FlattenBlock, FlattenMembers). The result is empty exactly when every list is empty. |
| Flattening.FlattenAppend | StockAnalyzer.Windows/MainWindow.xaml.cs:94-96 | Flattening two runs of per-identifier lists equals concatenating their flattenings. |
| Flattening.FlattenOffsetStep | StockAnalyzer.Windows/MainWindow.xaml.cs:94-96 | Identifier i+1's records start where identifier i's records end. |
| Flattening.FlattenBlock | StockAnalyzer.Windows/MainWindow.xaml.cs:94-96 | Each identifier's records appear unchanged, as one contiguous block, after the records of every earlier identifier. |
| Flattening.FlattenMembers | StockAnalyzer.Windows/MainWindow.xaml.cs:94-96 | A record is in the flat list if and only if some identifier's list contains it. |
| Cancellation.CancelSource.constructor | StockAnalyzer.Windows/MainWindow.xaml.cs:49 | A new source is not cancelled and its callback has not run. |
| Cancellation.CancelSource.Cancel | StockAnalyzer.Windows/MainWindow.xaml.cs:50-53 | Cancel sets the flag. Only the first call runs the registered callback, so the callback runs once in total. |
| Batch.LaunchAll | StockAnalyzer.Windows/MainWindow.xaml.cs:64-73 | The loop issues exactly one fetch per identifier, in identifier order, and every fetch gets the same token. |
| Batch.LaunchQuery | StockAnalyzer.Windows/MainWindow.xaml.cs:58-73 | The fetches are the text's tokens in order, one more than its separators, all on one token. Their identifiers rejoin to the query text. |
| Batch.Settle | StockAnalyzer.Windows/MainWindow.xaml.cs:80-100 | Records are published if and only if every load succeeded. A timeout fails with "Timeout!", or with the null-reference message when the field is already null. A faulted or cancelled batch fails with the message of the exception that reading `.Result` raises. |
| Batch.SettlePublishesInOrder | StockAnalyzer.Windows/MainWindow.xaml.cs:94-96 | On success, identifier i's records are published as the block between offsets i and i+1, in submission order. |
| Batch.SettlePublishesAll | StockAnalyzer.Windows/MainWindow.xaml.cs:94-96 | On success, a record is published if and only if some identifier's load returned it. |
| Session.SearchController.constructor | StockAnalyzer.Windows/MainWindow.xaml.cs:24-31 | The window opens idle: no source, button "Search", nothing shown, progress hidden. |
| Session.SearchController.OnCancellationRequested | StockAnalyzer.Windows/MainWindow.xaml.cs:50-53 | The registered callback writes "Cancellation requested" to Notes. |
| Session.SearchController.BeforeLoadingStockData | StockAnalyzer.Windows/MainWindow.xaml.cs:177-182 | The progress indicator is shown. |
| Session.SearchController.AfterLoadingStockData | StockAnalyzer.Windows/MainWindow.xaml.cs:184-188 | The progress indicator is hidden. |
| Session.SearchController.Click | StockAnalyzer.Windows/MainWindow.xaml.cs:33-73 | While running: cancels the held source (its callback writes Notes), clears the field, shows "Search" and launches nothing. While idle: holds a fresh uncancelled source, shows "Cancel" and the progress indicator, and launches one fetch per token of the text, in order, all on the new source. The button always mirrors the field. |
| Session.SearchController.Complete | StockAnalyzer.Windows/MainWindow.xaml.cs:80-108 | On a timeout, cancels the source the field holds. Notes reads "Cancellation requested" and then "Timeout!". Publishes the flattened records only when all loads succeeded. Otherwise Notes gets the failure message and the grid is unchanged. Always ends idle: field null, button "Search", progress hidden. |
| Scenarios.CancelTwice | StockAnalyzer.Windows/MainWindow.xaml.cs:50-53 | Cancelling twice runs the callback once, and the second call reports that nothing fired. |
| Scenarios.PressTwice | StockAnalyzer.Windows/MainWindow.xaml.cs:35-73 | A second press cancels the token of every fetch the first press launched, launches nothing and shows "Search". |
| Scenarios.EmptyQuery | StockAnalyzer.Windows/MainWindow.xaml.cs:58-73 | An empty query launches exactly one fetch, for the empty identifier. |
| Scenarios.TwoIdentifiers | StockAnalyzer.Windows/MainWindow.xaml.cs:58-108 | "AAPL,MSFT" launches fetches for AAPL and then MSFT. Loads returning [1] and [2, 3] show [1, 2, 3]. |
| Scenarios.TimeoutAfterCancel | StockAnalyzer.Windows/MainWindow.xaml.cs:35-108 | A timeout after the user cancelled finds the field null, so Notes shows the null-reference message and the window is idle. |
| Scenarios.LateTimeoutResetsNewerSearch | StockAnalyzer.Windows/MainWindow.xaml.cs:35-108 | A cancelled search's late timeout cancels the token of the newer search's fetches and leaves the window idle, with Notes "Timeout!" and the progress indicator hidden. |
| Scenarios.SearchSucceeds | StockAnalyzer.Windows/MainWindow.xaml.cs:58-108 | For every query and every provider, when each launched fetch succeeds with the provider's records for its identifier, the window shows those records for each identifier of the text, in the text's order, and ends with "Search". |

## Left out

- `Task.Delay(120000)`, `Task.WhenAll`, `Task.WhenAny` and the scheduling of the loads (lines 75-80) are concurrency and timing. The race is the `Outcome` argument of `Complete`, so interleavings between `Click` and `Complete` are modelled only as call orders.
- `MockStockService`/`StockService.GetStockPricesFor` (line 69) is not part of this model. A fetch is only the request it was issued with: identifier and token. Whether a fetch reacts to its token shows up only through the `Outcome` given to `Complete`.
- Faulted: the text of the exception that reading `.Result` of a faulted `WhenAll` raises (line 95) is runtime-defined. It is carried as an opaque message string.
- Cancellation.CancelSource.Cancel: the callback's effect on Notes is applied by the code that registered it (the controller), when `Cancel` reports that the callback fired. The source does not hold a reference to the window.
- `Stopwatch` and the elapsed-time text of `StocksStatus` (lines 179, 186) depend on the wall clock. `StockProgress.IsIndeterminate` (line 181) is not modelled.
- The window's initial control values come from XAML, which is not part of this model. The constructor assumes "Search", empty Notes, no records and a hidden progress indicator.
- `SearchForStocks` (lines 119-142) reads a CSV file and is not called by the handler.
- `GetStocks`/`DataStore` (lines 144-158) is a foreign call and is unused.
- `Hyperlink_OnRequestNavigate` and `Close_OnClick` (lines 190-200) concern process and application lifecycle.
- Exceptions thrown synchronously while the batch is being set up (lines 49-77) are not modelled. Only failures of the awaited loads are.
