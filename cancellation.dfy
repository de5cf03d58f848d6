/** The `CancellationTokenSource` of one search: a flag that is set once and
    a count of how often the callback registered on its token has run. */
module Cancellation {

  class CancelSource {
    /** `IsCancellationRequested` of the token. */
    var cancelled: bool
    /** Runs of the callback registered on the token (the source registers
        one callback right after creating the source). */
    var callbacksFired: nat

    /** The callback has run once if the source is cancelled, never if not. */
    ghost predicate Valid()
      reads this
    {
      callbacksFired == if cancelled then 1 else 0
    }

    constructor ()
      ensures Valid() && !cancelled && callbacksFired == 0
    {
      cancelled := false;
      callbacksFired := 0;
    }

    /** `Cancel()`: sets the flag; only the first call runs the callback,
        which `fired` reports so that the registering code can apply the
        callback's effect. */
    method Cancel() returns (fired: bool)
      requires Valid()
      modifies this
      ensures Valid() && cancelled
      ensures fired <==> !old(cancelled)
      ensures callbacksFired == old(callbacksFired) + (if fired then 1 else 0)
    {
      fired := !cancelled;
      if fired {
        cancelled := true;
        callbacksFired := callbacksFired + 1;
      }
    }
  }
}
