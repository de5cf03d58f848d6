/** The batch part of a search: one fetch per identifier, all on the same
    token, and the decision taken once the race between the batch and the
    120-second timer is over. Scheduling, the timer and the stock service
    are not modelled: a fetch is the request that was issued, and the race
    is an Outcome value. */
module Batch {
  import opened Tokenizer
  import opened Flattening
  import opened Cancellation

  /** `GetStockPricesFor(identifier, token)` as issued. */
  datatype Fetch = Fetch(identifier: string, token: CancelSource)

  /** How `await Task.WhenAny(timeoutTask, allStocksLoadingTask)` settled:
      the timer first, every load succeeded (one record list per identifier,
      in submission order), or reading `.Result` of the faulted or cancelled
      `Task.WhenAll` raised an exception, whose message is carried as is. */
  datatype Outcome<R> =
    | TimeoutFirst
    | AllSucceeded(perIdentifier: seq<seq<R>>)
    | Faulted(message: string)

  /** What the try/catch makes visible: a record list for the grid, or a
      message for Notes. */
  datatype Settlement<R> = Publish(items: seq<R>) | Fail(message: string)

  /** Message of the exception thrown when the timer wins. */
  const TimeoutMessage := "Timeout!"
  /** Message of the exception raised by `cancellationTokenSource.Cancel()`
      when the field has already been cleared. */
  const NullReferenceMessage := "Object reference not set to an instance of an object."

  /** The launch loop: one fetch per identifier, in identifier order, all
      sharing `token`. */
  method LaunchAll(identifiers: seq<string>, token: CancelSource) returns (launched: seq<Fetch>)
    ensures |launched| == |identifiers|
    ensures forall i :: 0 <= i < |launched| ==>
              launched[i].identifier == identifiers[i] && launched[i].token == token
  {
    launched := [];
    for i := 0 to |identifiers|
      invariant |launched| == i
      invariant forall k :: 0 <= k < i ==> launched[k] == Fetch(identifiers[k], token)
    {
      launched := launched + [Fetch(identifiers[i], token)];
    }
  }

  /** The launch loop on the query text: the fetch count is the separator
      count plus one, and fetch i asks for the i-th token of the text. */
  method LaunchQuery(text: string, token: CancelSource) returns (launched: seq<Fetch>)
    ensures |launched| == |Tokenize(text)| == |DelimitersOf(text)| + 1
    ensures forall i :: 0 <= i < |launched| ==>
              launched[i] == Fetch(Tokenize(text)[i], token) && NoDelimiter(launched[i].identifier)
    ensures Rejoin(seq(|launched|, i requires 0 <= i < |launched| => launched[i].identifier),
                   DelimitersOf(text)) == text
  {
    var identifiers := Tokenize(text);
    launched := LaunchAll(identifiers, token);
    assert seq(|launched|, i requires 0 <= i < |launched| => launched[i].identifier) == identifiers;
    RejoinTokenize(text);
  }

  /** The decision after the race: the batch's records are published only
      when every load succeeded; the timer fails the search with "Timeout!"
      (or, when the source field was already cleared, with the exception
      of calling Cancel through it); a faulted or cancelled batch fails it
      with the message of the exception that reading `.Result` raises. */
  function Settle<R>(outcome: Outcome<R>, sourcePresent: bool): (r: Settlement<R>)
    ensures r.Publish? <==> outcome.AllSucceeded?
    ensures outcome.TimeoutFirst? ==>
              r == Fail(if sourcePresent then TimeoutMessage else NullReferenceMessage)
    ensures outcome.Faulted? ==> r == Fail(outcome.message)
  {
    match outcome
    case TimeoutFirst => Fail(if sourcePresent then TimeoutMessage else NullReferenceMessage)
    case AllSucceeded(perIdentifier) => Publish(Flatten(perIdentifier))
    case Faulted(message) => Fail(message)
  }

  /** When every load succeeded, the published list holds each
      identifier's records unchanged, as one block, in submission order. */
  lemma SettlePublishesInOrder<R>(perIdentifier: seq<seq<R>>, sourcePresent: bool, i: nat)
    requires i < |perIdentifier|
    ensures Settle(AllSucceeded(perIdentifier), sourcePresent).Publish?
    ensures var items := Settle(AllSucceeded(perIdentifier), sourcePresent).items;
            && Offset(perIdentifier, i) + |perIdentifier[i]| == Offset(perIdentifier, i + 1) <= |items|
            && items[Offset(perIdentifier, i)..Offset(perIdentifier, i + 1)] == perIdentifier[i]
  {
    FlattenBlock(perIdentifier, i);
    FlattenOffsetStep(perIdentifier, i);
  }

  /** A published record comes from some identifier, and every record of
      every identifier is published. */
  lemma SettlePublishesAll<R>(perIdentifier: seq<seq<R>>, sourcePresent: bool, x: R)
    ensures x in Settle(AllSucceeded(perIdentifier), sourcePresent).items
            <==> exists i :: 0 <= i < |perIdentifier| && x in perIdentifier[i]
  {
    FlattenMembers(perIdentifier, x);
  }
}
