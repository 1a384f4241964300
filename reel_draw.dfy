/** The single-reel draw of the main page: the guest list is refreshed by polling, and
    a spin picks a winner index at random, animates the reel to it and then displays
    that guest. */
module ReelDraw {
  import opened Common

  /** What a call of `spin` did. */
  datatype SpinOutcome =
    | NoGuests            // the "No guests registered yet!" alert
    | Busy                // a spin is already running
    | Started(index: nat) // the reel is animating towards `guests[index]`

  class Reel {
    var guests: seq<Guest>
    var isSpinning: bool
    /** The winner the running spin animates towards. */
    var pending: Option<Guest>
    /** The winner displayed by the last completed spin. */
    var shown: Option<Guest>

    /** A running spin has a winner, and it is one of the guests. The list cannot change
        under a running spin because the refresh skips while spinning. */
    ghost predicate Valid()
      reads this
    {
      isSpinning ==> pending.Some? && pending.value in guests
    }

    constructor ()
      ensures Valid()
      ensures guests == [] && !isSpinning && pending == None && shown == None
    {
      guests := [];
      isSpinning := false;
      pending := None;
      shown := None;
    }

    /** `fetchGuests`: skipped while spinning; otherwise a decoded response is normalised
        (a string becomes a guest without a picture, a record stays as it is) and replaces
        the list only when its length differs; a failed request keeps the list. */
    method FetchGuests(response: Result<seq<Entry>>)
      requires Valid()
      modifies this
      ensures Valid()
      ensures old(isSpinning) ==> unchanged(this)
      ensures response.Err? ==> unchanged(this)
      ensures !old(isSpinning) && response.Ok? ==>
        if |response.value| != |old(guests)| then guests == NormaliseAll(response.value)
        else guests == old(guests)
      ensures isSpinning == old(isSpinning) && pending == old(pending) && shown == old(shown)
    {
      if isSpinning {
        return;
      }
      if response.Ok? {
        var processed := NormaliseAll(response.value);
        if |processed| != |guests| {
          guests := processed;
        }
      }
    }

    /** `spin`. `pick` is `Math.floor(Math.random() * guests.length)`. The empty check
        comes before the busy check. */
    method Spin(pick: nat) returns (outcome: SpinOutcome)
      requires Valid()
      requires guests != [] ==> pick < |guests|
      modifies this
      ensures Valid()
      ensures old(guests) == [] ==> outcome == NoGuests && unchanged(this)
      ensures old(guests) != [] && old(isSpinning) ==> outcome == Busy && unchanged(this)
      ensures old(guests) != [] && !old(isSpinning) ==>
        && outcome == Started(pick)
        && guests == old(guests) && shown == old(shown)
        && isSpinning && pending == Some(guests[pick])
    {
      if |guests| == 0 {
        return NoGuests;
      }
      if isSpinning {
        return Busy;
      }
      isSpinning := true;
      pending := Some(guests[pick]);
      outcome := Started(pick);
    }

    /** The last timeout of `spin`: the winner is displayed and the reel is released. */
    method FinishSpin()
      requires Valid() && isSpinning
      modifies this
      ensures Valid() && !isSpinning
      ensures shown == old(pending) && shown.Some? && shown.value in guests
      ensures guests == old(guests)
    {
      shown := pending;
      isSpinning := false;
    }
  }

  /** Polling cannot disturb a spin: a refresh started during a spin, whatever it fetched, leaves
      the list and the pending winner alone, so the spin still ends on a listed guest. */
  method SpinSurvivesPolling(r: Reel, pick: nat, polled: seq<Result<seq<Entry>>>)
    requires r.Valid() && r.guests != [] && !r.isSpinning && pick < |r.guests|
    modifies r
    ensures r.Valid() && !r.isSpinning
    ensures r.guests == old(r.guests) && r.shown == Some(old(r.guests)[pick])
  {
    var outcome := r.Spin(pick);
    for k := 0 to |polled|
      invariant r.Valid() && r.isSpinning
      invariant r.guests == old(r.guests) && r.pending == Some(old(r.guests)[pick])
    {
      r.FetchGuests(polled[k]);
    }
    r.FinishSpin();
  }
}
