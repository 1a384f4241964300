/** The grid draw: every guest with a name and a picture gets a card, a 20-tick animation
    highlights one random card per tick, and then a separately drawn winner's card is the
    only one left highlighted. */
module GridDraw {
  import opened Common

  /** `data.filter(g => g.name && g.pictureUrl)` */
  function PicturedGuests(data: seq<Guest>): (r: seq<Guest>)
    ensures |r| <= |data|
    ensures forall g :: g in r <==> g in data && g.name != "" && Truthy(g.pictureUrl)
  {
    Filter(data, (g: Guest) => g.name != "" && Truthy(g.pictureUrl))
  }

  /** The highlight state of `n` cards where only card `i` is highlighted. */
  function OnlyAt(n: nat, i: nat): (s: seq<bool>)
    requires i < n
    ensures |s| == n
  {
    seq(n, j requires 0 <= j < n => j == i)
  }

  /** The number of highlighted cards. */
  function CountHighlighted(s: seq<bool>): nat
  {
    if s == [] then 0 else (if s[0] then 1 else 0) + CountHighlighted(s[1..])
  }

  /** A state with a single highlighted card: exactly one card is highlighted, and the
      only highlighted card is card `i`. */
  lemma {:induction false} OnlyAtIsSingle(n: nat, i: nat)
    requires i < n
    ensures CountHighlighted(OnlyAt(n, i)) == 1
    ensures forall j :: 0 <= j < n ==> (OnlyAt(n, i)[j] <==> j == i)
  {
    var s := OnlyAt(n, i);
    SplitCount(s, i);
    NoneHighlighted(s[..i]);
    NoneHighlighted(s[i + 1..]);
  }

  lemma {:induction false} NoneHighlighted(s: seq<bool>)
    requires forall j :: 0 <= j < |s| ==> !s[j]
    ensures CountHighlighted(s) == 0
  {
    if s != [] {
      NoneHighlighted(s[1..]);
    }
  }

  lemma {:induction false} SplitCount(s: seq<bool>, i: nat)
    requires i < |s|
    ensures CountHighlighted(s) == CountHighlighted(s[..i]) + (if s[i] then 1 else 0) + CountHighlighted(s[i + 1..])
  {
    if i > 0 {
      assert s[..i][1..] == s[1..][..i - 1];
      assert s[i + 1..] == s[1..][i..];
      SplitCount(s[1..], i - 1);
    } else {
      assert s[1..] == s[i + 1..];
    }
  }

  /** Choices for one draw: the card highlighted at each of the 20 ticks and the final
      winner, each `Math.floor(Math.random() * n)` for `n` cards. */
  predicate ValidDrawPicks(picks: seq<nat>, finalPick: nat, n: nat)
  {
    |picks| == 20 && (forall k :: 0 <= k < 20 ==> picks[k] < n) && finalPick < n
  }

  class Grid {
    var guests: seq<Guest>
    var isDrawing: bool
    /** The `winner` class of each rendered card, in guest order. */
    var cards: array<bool>
    /** The guest announced by the last completed draw. */
    var winner: Option<Guest>
    /** The guest selected by the running draw, announced when it finishes. */
    var selected: Option<Guest>

    /** There is one card per guest. */
    ghost predicate Valid()
      reads this
    {
      cards.Length == |guests|
    }

    constructor ()
      ensures Valid() && fresh(cards)
      ensures guests == [] && !isDrawing && winner == None && selected == None
    {
      guests := [];
      isDrawing := false;
      cards := new bool[0];
      winner := None;
      selected := None;
    }

    /** `fetchGuests` with `renderGuestCards`, at page load: a decoded response gives the
        guests with a name and a picture and one unhighlighted card each; on a failure the
        grid shows a message and there are no cards. */
    method FetchGuests(response: Result<seq<Guest>>)
      requires Valid() && !isDrawing && guests == []
      modifies this
      ensures Valid() && fresh(cards) && !isDrawing
      ensures response.Ok? ==> guests == PicturedGuests(response.value)
      ensures response.Err? ==> guests == []
      ensures forall j :: 0 <= j < cards.Length ==> !cards[j]
      ensures winner == old(winner) && selected == old(selected)
    {
      if response.Ok? {
        guests := PicturedGuests(response.value);
      }
      cards := new bool[|guests|](_ => false);
    }

    /** `cards.forEach(card => card.classList.remove('winner'))` */
    method ClearHighlights()
      requires Valid()
      modifies cards
      ensures forall j :: 0 <= j < cards.Length ==> !cards[j]
    {
      for j := 0 to cards.Length
        invariant forall m :: 0 <= m < j ==> !cards[m]
      {
        cards[j] := false;
      }
    }

    /** Clear every highlight, then highlight card `i`. */
    method HighlightOnly(i: nat)
      requires Valid() && i < cards.Length
      modifies cards
      ensures cards[..] == OnlyAt(cards.Length, i)
    {
      ClearHighlights();
      cards[i] := true;
      assert cards[..] == OnlyAt(cards.Length, i);
    }

    /** `drawWinner` with its 20 timer ticks and `selectFinalWinner`. `picks[k]` is the
        card highlighted at tick k, `finalPick` the winner's index; `shown[k]` is the
        highlight state after tick k. */
    method DrawWinner(picks: seq<nat>, finalPick: nat) returns (ghost shown: seq<seq<bool>>)
      requires Valid()
      requires guests != [] ==> ValidDrawPicks(picks, finalPick, |guests|)
      modifies this, cards
      ensures Valid() && cards == old(cards)
      ensures old(isDrawing) || old(guests) == [] ==>
        unchanged(this) && unchanged(cards) && shown == []
      ensures !old(isDrawing) && old(guests) != [] ==>
        && isDrawing
        && guests == old(guests) && winner == old(winner)
        && |shown| == 20
        && (forall k :: 0 <= k < 20 ==> shown[k] == OnlyAt(|guests|, picks[k]))
        && cards[..] == OnlyAt(|guests|, finalPick)
        && selected == Some(guests[finalPick])
    {
      shown := [];
      if isDrawing || |guests| == 0 {
        return;
      }
      isDrawing := true;
      ClearHighlights();
      var iterations := 0;
      while iterations < 20
        invariant 0 <= iterations <= 20 && |shown| == iterations
        invariant Valid() && cards == old(cards) && isDrawing
        invariant guests == old(guests) && winner == old(winner)
        invariant forall k :: 0 <= k < iterations ==> shown[k] == OnlyAt(|guests|, picks[k])
      {
        HighlightOnly(picks[iterations]);
        shown := shown + [cards[..]];
        iterations := iterations + 1;
      }
      SelectFinalWinner(finalPick);
    }

    /** `selectFinalWinner` up to its timers: only the winner's card stays highlighted. */
    method SelectFinalWinner(finalPick: nat)
      requires Valid() && finalPick < |guests|
      modifies this, cards
      ensures Valid() && cards == old(cards)
      ensures cards[..] == OnlyAt(|guests|, finalPick)
      ensures selected == Some(guests[finalPick])
      ensures guests == old(guests) && isDrawing == old(isDrawing) && winner == old(winner)
    {
      HighlightOnly(finalPick);
      selected := Some(guests[finalPick]);
    }

    /** The last timer of `selectFinalWinner`: the winner is announced and the button is
        released, so a new draw is accepted. */
    method FinishDraw()
      requires Valid()
      modifies this
      ensures Valid() && !isDrawing
      ensures winner == old(selected) && selected == old(selected)
      ensures guests == old(guests) && cards == old(cards)
    {
      winner := selected;
      isDrawing := false;
    }
  }
}
