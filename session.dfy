/** The search window's handler `Search_Click`, cut at its one `await`:
    `Click` is the part that runs when the button is pressed (either the
    cancel branch, or everything up to the race), `Complete` the part that
    runs when the race has settled (the decision, the catch and the
    finally). The window's controls are plain fields holding what they
    show. */
module Session {
  import opened Tokenizer
  import opened Cancellation
  import opened Batch

  const SearchLabel := "Search"
  const CancelLabel := "Cancel"
  /** What the callback registered on every new source writes to Notes. */
  const CancellationRequested := "Cancellation requested"

  class SearchController<R> {
    /** The `cancellationTokenSource` field: null while idle. */
    var cts: CancelSource?
    /** `Search.Content`, the button's text. */
    var buttonText: string
    /** `Notes.Text`. */
    var notes: string
    /** `Stocks.ItemsSource`: the records on show. */
    var items: seq<R>
    /** `StockProgress.Visibility == Visible`. */
    var progressVisible: bool
    /** Every value written to Notes, oldest first. */
    ghost var noteLog: seq<string>

    /** The button reads "Cancel" exactly while a source is held, a held
        source has not been cancelled yet, and Notes shows the last value
        written to it. */
    ghost predicate Valid()
      reads this, cts
    {
      && buttonText == (if cts == null then SearchLabel else CancelLabel)
      && (cts != null ==> cts.Valid() && !cts.cancelled)
      && (noteLog != [] ==> notes == noteLog[|noteLog| - 1])
    }

    /** The window as it opens: idle, nothing loaded. */
    constructor ()
      ensures Valid()
      ensures cts == null && buttonText == SearchLabel && notes == "" && items == []
      ensures !progressVisible && noteLog == []
    {
      cts := null;
      buttonText := SearchLabel;
      notes := "";
      items := [];
      progressVisible := false;
      noteLog := [];
    }

    /** The callback registered on each new source's token. */
    method OnCancellationRequested()
      modifies this`notes, this`noteLog
      ensures notes == CancellationRequested
      ensures noteLog == old(noteLog) + [CancellationRequested]
    {
      notes := CancellationRequested;
      noteLog := noteLog + [notes];
    }

    /** `BeforeLoadingStockData`: the progress indicator is shown. */
    method BeforeLoadingStockData()
      modifies this`progressVisible
      ensures progressVisible
    {
      progressVisible := true;
    }

    /** `AfterLoadingStockData`: the progress indicator is hidden. */
    method AfterLoadingStockData()
      modifies this`progressVisible
      ensures !progressVisible
    {
      progressVisible := false;
    }

    /** A press of the button. While a search runs it cancels that search's
        source (whose callback writes Notes), drops it and goes back to
        "Search", launching nothing. While idle it creates a fresh source,
        shows "Cancel" and the progress indicator, and launches one fetch
        per identifier of the query text, in order, all on the new token. */
    method Click(text: string) returns (launched: seq<Fetch>)
      requires Valid()
      modifies this, cts
      ensures Valid()
      ensures items == old(items)
      ensures old(cts) != null ==>
                && old(cts).cancelled && old(cts).callbacksFired == 1
                && cts == null && buttonText == SearchLabel && launched == []
                && notes == CancellationRequested
                && noteLog == old(noteLog) + [CancellationRequested]
                && progressVisible == old(progressVisible)
      ensures old(cts) == null ==>
                && cts != null && fresh(cts) && !cts.cancelled && cts.callbacksFired == 0
                && buttonText == CancelLabel && progressVisible
                && notes == old(notes) && noteLog == old(noteLog)
                && |launched| == |Tokenize(text)|
                && forall i :: 0 <= i < |launched| ==> launched[i] == Fetch(Tokenize(text)[i], cts)
    {
      if cts != null {
        var fired := cts.Cancel();
        if fired {
          OnCancellationRequested();
        }
        cts := null;
        buttonText := SearchLabel;
        launched := [];
        return;
      }
      var source := new CancelSource();
      cts := source;
      buttonText := CancelLabel;
      BeforeLoadingStockData();
      launched := LaunchQuery(text, source);
    }

    /** The continuation once the race has settled. It goes through the
        shared field, not the source its own Click created: on a timeout it
        cancels whatever source the field holds (its callback writes Notes
        before "Timeout!" overwrites it), and if the field is empty the call
        fails instead. The records are published only when every load
        succeeded; otherwise Notes gets the failure's message and the grid
        keeps what it had. Whatever the outcome, the window ends idle with
        the progress indicator hidden. */
    method Complete(outcome: Outcome<R>)
      requires Valid()
      modifies this, cts
      ensures Valid()
      ensures cts == null && buttonText == SearchLabel && !progressVisible
      ensures old(cts) != null && outcome.TimeoutFirst? ==>
                old(cts).cancelled && old(cts).callbacksFired == 1
      ensures old(cts) != null && !outcome.TimeoutFirst? ==>
                !old(cts).cancelled && old(cts).callbacksFired == 0
      ensures var cancelNote := if outcome.TimeoutFirst? && old(cts) != null
                                then [CancellationRequested] else [];
              match Settle(outcome, old(cts) != null)
              case Publish(xs) =>
                items == xs && notes == old(notes) && noteLog == old(noteLog)
              case Fail(message) =>
                items == old(items) && notes == message
                && noteLog == old(noteLog) + cancelNote + [message]
    {
      var sourcePresent := cts != null;
      if outcome.TimeoutFirst? && cts != null {
        var fired := cts.Cancel();
        if fired {
          OnCancellationRequested();
        }
      }
      match Settle(outcome, sourcePresent) {
        case Publish(xs) =>
          items := xs;
        case Fail(message) =>
          notes := message;
          noteLog := noteLog + [message];
      }
      AfterLoadingStockData();
      cts := null;
      buttonText := SearchLabel;
    }
  }
}
