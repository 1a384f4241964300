/** The stepwise name picker: a cursor walks the guest list one position per timer tick,
    the timer slows down over the last ticks, and the guest under the cursor when the
    tick budget runs out is the winner. */
module StepDraw {
  import opened Common
  import opened Modular

  /** `data.filter(g => g.name)`: the guests with a non-empty name, in their order. */
  function NamedGuests(data: seq<Guest>): (r: seq<Guest>)
    ensures |r| <= |data|
    ensures forall g :: g in r <==> g in data && g.name != ""
  {
    Filter(data, (g: Guest) => g.name != "")
  }

  /** The period of the timer after a tick that leaves the spin running.
      `iterations > maxIterations * 0.7` is written `10 * iterations > 7 * maxIterations`,
      and `Math.floor(maxIterations * 0.7)` is `7 * maxIterations / 10`. */
  function TickDelay(iterations: nat, maxIterations: nat): nat
  {
    if 10 * iterations > 7 * maxIterations then 50 + (iterations - 7 * maxIterations / 10) * 20
    else 50
  }

  /** The slow-down test agrees with comparing against the floored threshold, and once it
      holds the period is at least 70 ms and grows by 20 ms per tick. */
  lemma DelaySchedule(iterations: nat, maxIterations: nat)
    ensures 10 * iterations > 7 * maxIterations <==> iterations > 7 * maxIterations / 10
    ensures 10 * iterations <= 7 * maxIterations ==> TickDelay(iterations, maxIterations) == 50
    ensures 10 * iterations > 7 * maxIterations ==>
      && TickDelay(iterations, maxIterations) >= 70
      && TickDelay(iterations + 1, maxIterations) == TickDelay(iterations, maxIterations) + 20
  {
    var t := 7 * maxIterations / 10;
    assert 7 * maxIterations == 10 * t + 7 * maxIterations % 10;
    if iterations > t {
      assert 10 * iterations >= 10 * t + 10;
    }
  }

  class Picker {
    var guests: seq<Guest>
    var isSpinning: bool
    var currentIndex: nat
    /** Ticks run by the current spin, and the budget drawn when it started. */
    var iterations: nat
    var maxIterations: nat
    /** The period of the spin timer, in milliseconds. */
    var delay: nat
    /** The guest shown as the winner by the last completed spin. */
    var winner: Option<Guest>
    /** Where the cursor stood when the current spin started. */
    ghost var startIndex: nat

    /** While a spin runs: the list is non-empty, the budget is 30..49 and not yet used
        up, the cursor has moved once per tick from where it started, and the timer
        period follows the schedule. */
    ghost predicate Valid()
      reads this
    {
      isSpinning ==>
        && |guests| > 0
        && 30 <= maxIterations < 50
        && iterations < maxIterations
        && delay == TickDelay(iterations, maxIterations)
        && (iterations == 0 ==> currentIndex == startIndex)
        && (iterations > 0 ==> currentIndex == (startIndex + iterations) % |guests|)
    }

    constructor ()
      ensures Valid()
      ensures guests == [] && !isSpinning && currentIndex == 0 && winner == None
    {
      guests := [];
      isSpinning := false;
      currentIndex := 0;
      iterations := 0;
      maxIterations := 0;
      delay := 50;
      winner := None;
      startIndex := 0;
    }

    /** `fetchGuests`: a decoded response replaces the list by its named guests; a failed
        request or an unreadable body leaves the list as it was. */
    method FetchGuests(response: Result<seq<Guest>>)
      requires Valid() && !isSpinning
      modifies this
      ensures Valid() && !isSpinning
      ensures response.Ok? ==> guests == NamedGuests(response.value)
      ensures response.Err? ==> guests == old(guests)
      ensures currentIndex == old(currentIndex) && winner == old(winner)
    {
      if response.Ok? {
        guests := NamedGuests(response.value);
      }
    }

    /** `startSpin`. `pick` is `Math.floor(Math.random() * 20)`. */
    method StartSpin(pick: nat)
      requires Valid() && pick < 20
      modifies this
      ensures Valid()
      ensures old(isSpinning) || old(guests) == [] ==> unchanged(this)
      ensures !old(isSpinning) && old(guests) != [] ==>
        && isSpinning
        && iterations == 0 && maxIterations == 30 + pick && delay == 50
        && startIndex == currentIndex == old(currentIndex)
        && guests == old(guests) && winner == old(winner)
    {
      if isSpinning || |guests| == 0 {
        return;
      }
      isSpinning := true;
      iterations := 0;
      maxIterations := 30 + pick;
      delay := 50;
      startIndex := currentIndex;
    }

    /** The inner `spin`, run by the timer: advance the cursor, count the tick, and either
        stop or adjust the timer period. */
    method Tick()
      requires Valid() && isSpinning
      modifies this
      ensures Valid()
      ensures guests == old(guests) && startIndex == old(startIndex)
      ensures maxIterations == old(maxIterations)
      ensures currentIndex == (old(currentIndex) + 1) % |guests|
      ensures iterations == old(iterations) + 1
      ensures currentIndex == (startIndex + iterations) % |guests|
      ensures isSpinning <==> iterations < maxIterations
      ensures isSpinning ==> winner == old(winner)
      ensures !isSpinning ==> winner == Some(guests[currentIndex])
    {
      var n := |guests|;
      if iterations > 0 {
        ModAddOne(startIndex + iterations, n);
      }
      currentIndex := (currentIndex + 1) % n;
      iterations := iterations + 1;
      if iterations >= maxIterations {
        StopSpin();
      } else if 10 * iterations > 7 * maxIterations {
        DelaySchedule(iterations, maxIterations);
        delay := 50 + (iterations - 7 * maxIterations / 10) * 20;
      }
    }

    /** `stopSpin`: the spin ends and the guest under the cursor is the winner. */
    method StopSpin()
      requires currentIndex < |guests|
      modifies this
      ensures guests == old(guests) && currentIndex == old(currentIndex)
      ensures Valid() && !isSpinning
      ensures winner == Some(guests[currentIndex])
      ensures iterations == old(iterations) && maxIterations == old(maxIterations)
      ensures delay == old(delay) && startIndex == old(startIndex)
    {
      isSpinning := false;
      winner := Some(guests[currentIndex]);
    }

    /** The timer firing until the spin stops: exactly `maxIterations` ticks run, and the
        winner is the guest `maxIterations` places after the starting cursor. */
    method RunToEnd() returns (ticks: nat)
      requires Valid() && isSpinning && iterations == 0
      modifies this
      ensures Valid() && !isSpinning
      ensures guests == old(guests) && maxIterations == old(maxIterations)
      ensures ticks == maxIterations
      ensures winner == Some(guests[(old(startIndex) + maxIterations) % |guests|])
    {
      ticks := 0;
      while isSpinning
        invariant Valid()
        invariant guests == old(guests) && startIndex == old(startIndex)
        invariant maxIterations == old(maxIterations)
        invariant |guests| > 0 && ticks == iterations <= maxIterations
        invariant iterations > 0 ==> currentIndex == (startIndex + iterations) % |guests|
        invariant !isSpinning ==> iterations == maxIterations && winner == Some(guests[currentIndex])
        decreases maxIterations - iterations
      {
        Tick();
        ticks := ticks + 1;
      }
    }
  }
}
