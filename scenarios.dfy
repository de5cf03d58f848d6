/** Sequences of button presses and completions, as the window can see
    them, and what the window shows afterwards. Each is proved from the
    contracts of Click, Complete and CancelSource alone. */
module Scenarios {
  import opened Tokenizer
  import opened Flattening
  import opened Cancellation
  import opened Batch
  import opened Session

  /** Cancelling a source twice runs its callback once. */
  method CancelTwice() returns (firstFired: bool, secondFired: bool, runs: nat)
    ensures firstFired && !secondFired && runs == 1
  {
    var source := new CancelSource();
    firstFired := source.Cancel();
    secondFired := source.Cancel();
    runs := source.callbacksFired;
  }

  /** A second press while the search runs cancels the first press's
      token, launches nothing and shows "Search" again. */
  method PressTwice(text: string) returns (first: seq<Fetch>, second: seq<Fetch>, button: string)
    ensures |first| == |Tokenize(text)|
    ensures forall i :: 0 <= i < |first| ==> first[i].token.cancelled
    ensures second == [] && button == SearchLabel
  {
    var window := new SearchController<int>();
    first := window.Click(text);
    second := window.Click(text);
    button := window.buttonText;
  }

  /** An empty query launches one fetch, for the empty identifier. */
  method EmptyQuery() returns (launched: seq<Fetch>)
    ensures |launched| == 1 && launched[0].identifier == ""
  {
    var window := new SearchController<int>();
    launched := window.Click("");
  }

  /** "AAPL,MSFT" whose loads return [1] and [2, 3] shows [1, 2, 3]. */
  method TwoIdentifiers() returns (launched: seq<Fetch>, shown: seq<int>, button: string)
    ensures |launched| == 2
    ensures launched[0].identifier == "AAPL" && launched[1].identifier == "MSFT"
    ensures shown == [1, 2, 3] && button == SearchLabel
  {
    var window := new SearchController<int>();
    launched := window.Click("AAPL,MSFT");
    assert Tokenize("AAPL,MSFT") == ["AAPL", "MSFT"] by {
      TokenizeRejoin(["AAPL", "MSFT"], [',']);
      assert Rejoin(["AAPL", "MSFT"], [',']) == "AAPL,MSFT";
    }
    window.Complete(AllSucceeded([[1], [2, 3]]));
    assert Flatten([[1], [2, 3]]) == [1, 2, 3] by {
      assert [[1], [2, 3]][1..] == [[2, 3]];
      assert [[2, 3]][1..] == [];
    }
    shown := window.items;
    button := window.buttonText;
  }

  /** The timer of a search the user already cancelled fires: the field is
      empty, so the call to Cancel fails and Notes shows that failure. */
  method TimeoutAfterCancel(text: string) returns (notes: string, button: string)
    ensures notes == NullReferenceMessage && button == SearchLabel
  {
    var window := new SearchController<int>();
    var started := window.Click(text);
    var none := window.Click(text);
    window.Complete(TimeoutFirst);
    notes := window.notes;
    button := window.buttonText;
  }

  /** Search A is cancelled and search B started; then A's timer fires. A's
      continuation cancels B's token through the shared field and leaves
      the window idle while B's fetches still run. */
  method LateTimeoutResetsNewerSearch(a: string, b: string)
    returns (newer: seq<Fetch>, notes: string, button: string, progress: bool)
    ensures |newer| == |Tokenize(b)|
    ensures forall i :: 0 <= i < |newer| ==> newer[i].token.cancelled
    ensures notes == TimeoutMessage && button == SearchLabel && !progress
  {
    var window := new SearchController<int>();
    var older := window.Click(a);
    var none := window.Click(a);
    newer := window.Click(b);
    window.Complete(TimeoutFirst);
    notes := window.notes;
    button := window.buttonText;
    progress := window.progressVisible;
  }

  /** For any query and any provider `load`, when every fetch Click
      launched succeeds with `load` of its own identifier, the window shows
      the records of each identifier of the text, in the text's order, and
      ends idle. */
  method SearchSucceeds<R>(text: string, load: string -> seq<R>)
    returns (launched: seq<Fetch>, shown: seq<R>, button: string)
    ensures |launched| == |Tokenize(text)|
    ensures forall i :: 0 <= i < |launched| ==> launched[i].identifier == Tokenize(text)[i]
    ensures shown == Flatten(seq(|Tokenize(text)|, i requires 0 <= i < |Tokenize(text)| => load(Tokenize(text)[i])))
    ensures button == SearchLabel
  {
    var window := new SearchController<R>();
    launched := window.Click(text);
    var results := seq(|launched|, i requires 0 <= i < |launched| => load(launched[i].identifier));
    assert results == seq(|Tokenize(text)|, i requires 0 <= i < |Tokenize(text)| => load(Tokenize(text)[i]));
    window.Complete(AllSucceeded(results));
    shown := window.items;
    button := window.buttonText;
  }
}
