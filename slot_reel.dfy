/** The slot-reel lucky draw of the event page: a `Slot` holds the name list and the
    parallel list of guest records, shuffles the names into a reel of a fixed length,
    takes the last reel item as the winner and, if configured, removes that winner. */
module SlotReel {
  import opened Common
  import opened Modular

  /** The presentation hooks `Slot` invokes; `hooks` records each invocation in order. */
  datatype Hook = SpinStart | SpinEnd | NameListChanged

  /** `users.map(u => u.name)` */
  function Names(users: seq<Guest>): (names: seq<string>)
    ensures |names| == |users|
    ensures forall i :: 0 <= i < |users| ==> names[i] == users[i].name
  {
    seq(|users|, i requires 0 <= i < |users| => users[i].name)
  }

  /** A valid sequence of random choices for shuffling `n` names: the k-th choice is
      `Math.floor(Math.random() * (n - k))`, so it lies in `[0, n - k)`. */
  predicate ValidPicks(picks: seq<nat>, n: nat)
  {
    |picks| == n && forall k :: 0 <= k < n ==> picks[k] < n - k
  }

  /** One draw step of the shuffle seen on values: the element at `i` leaves the pool
      and the pool's last element takes its place. */
  function SwapRemove(pool: seq<string>, i: nat): (r: seq<string>)
    requires i < |pool|
    ensures |r| == |pool| - 1
  {
    pool[i := pool[|pool| - 1]][..|pool| - 1]
  }

  /** The order in which `shuffleNames` emits the names, as a function of the choices. */
  function Draws(pool: seq<string>, picks: seq<nat>): (r: seq<string>)
    requires ValidPicks(picks, |pool|)
    ensures |r| == |pool|
    decreases |picks|
  {
    if picks == [] then []
    else [pool[picks[0]]] + Draws(SwapRemove(pool, picks[0]), picks[1..])
  }

  lemma SwapRemoveMultiset(pool: seq<string>, i: nat)
    requires i < |pool|
    ensures multiset(SwapRemove(pool, i)) == multiset(pool) - multiset{pool[i]}
  {
    var n := |pool|;
    var r := SwapRemove(pool, i);
    var front, back, last := pool[..i], pool[i + 1..], pool[n - 1];
    assert pool == front + [pool[i]] + back;
    if i < n - 1 {
      var mid := back[..|back| - 1];
      assert back == mid + [last];
      assert r == front + [last] + mid;
      assert multiset(r) == multiset(front) + multiset{last} + multiset(mid);
      assert multiset(pool) == multiset(front) + multiset{pool[i]} + (multiset(mid) + multiset{last});
    } else {
      assert r == front;
      assert multiset(pool) == multiset(front) + multiset{pool[i]};
    }
  }

  /** Whatever the choices, the shuffle emits a permutation of the names. */
  lemma {:induction false} DrawsPermutation(pool: seq<string>, picks: seq<nat>)
    requires ValidPicks(picks, |pool|)
    ensures multiset(Draws(pool, picks)) == multiset(pool)
    decreases |picks|
  {
    if picks != [] {
      var i := picks[0];
      SwapRemoveMultiset(pool, i);
      DrawsPermutation(SwapRemove(pool, i), picks[1..]);
      assert pool[i] in multiset(pool);
    }
  }

  /** `n - Number(havePreviousWinner)` for a positive `n`. */
  function ReelLength(maxReelItems: nat, havePreviousWinner: bool): nat
    requires maxReelItems >= 1
  {
    if havePreviousWinner then maxReelItems - 1 else maxReelItems
  }

  /** The reel shown by a spin: the shuffled names repeated, cut to `len` items. */
  function ReelOf(shuffled: seq<string>, len: nat): (reel: seq<string>)
    requires shuffled != []
    ensures |reel| == len
  {
    seq(len, j requires 0 <= j < len => shuffled[j % |shuffled|])
  }

  /** `randomNames[randomNames.length - 1]`: undefined (None) on an empty reel. */
  function WinnerName(reel: seq<string>): Option<string>
  {
    if reel == [] then None else Some(reel[|reel| - 1])
  }

  /** `names.findIndex(name => name === w)` */
  function IndexOfName(names: seq<string>, w: string): (i: int)
    ensures -1 <= i < |names|
    ensures i == -1 <==> w !in names
    ensures 0 <= i ==> names[i] == w && w !in names[..i]
  {
    FindIndex(names, (n: string) => n == w)
  }

  /** `users.find(u => u.name === w)`: the first record carrying that name. */
  function FindByName(users: seq<Guest>, w: string): (r: Option<Guest>)
    ensures r.None? <==> w !in Names(users)
    ensures r.Some? ==> r.value == users[IndexOfName(Names(users), w)]
  {
    var i := IndexOfName(Names(users), w);
    if i == -1 then None else Some(users[i])
  }

  /** The winner record of a spin: the first user object with the winner's name, or
      `{ name: winnerName, pictureUrl: null }`; an undefined name reads as "". */
  function WinnerRecord(users: seq<Guest>, winner: Option<string>): (g: Guest)
    ensures winner.None? ==> g == Guest("", None, None)
    ensures winner.Some? ==> g.name == winner.value
    ensures winner.Some? && winner.value in Names(users) ==> g == users[IndexOfName(Names(users), winner.value)]
    ensures winner.Some? && winner.value !in Names(users) ==> g == Guest(winner.value, None, None)
  {
    match winner
    case None => Guest("", None, None)
    case Some(w) =>
      match FindByName(users, w)
      case Some(u) => u
      case None => Guest(w, None, None)
  }

  /** `if (i !== -1) s.splice(i, 1)`: drop the element at `i` when there is one. */
  function RemoveAt<T>(s: seq<T>, i: int): (r: seq<T>)
    ensures 0 <= i < |s| ==> |r| == |s| - 1
    ensures 0 <= i < |s| ==> s == r[..i] + [s[i]] + r[i..]
    ensures !(0 <= i < |s|) ==> r == s
  {
    if 0 <= i < |s| then s[..i] + s[i + 1..] else s
  }

  /** Every item of a reel is one of the names the spin started from. */
  lemma ReelItemsAreNames(names: seq<string>, picks: seq<nat>, len: nat)
    requires names != [] && ValidPicks(picks, |names|)
    ensures forall x :: x in ReelOf(Draws(names, picks), len) ==> x in names
  {
    var shuffled := Draws(names, picks);
    DrawsPermutation(names, picks);
    forall x | x in ReelOf(shuffled, len) ensures x in names {
      var j :| 0 <= j < len && ReelOf(shuffled, len)[j] == x;
      assert shuffled[j % |shuffled|] in multiset(names);
    }
  }

  /** Removing the winner takes out exactly its first occurrence and keeps the rest in order. */
  lemma RemoveFirstMatch(names: seq<string>, w: string)
    requires w in names
    ensures var i, r := IndexOfName(names, w), RemoveAt(names, IndexOfName(names, w));
      && |r| == |names| - 1
      && names == r[..i] + [w] + r[i..]
      && w !in r[..i]
      && multiset(r) == multiset(names) - multiset{w}
  {
    var i := IndexOfName(names, w);
    var r := RemoveAt(names, i);
    var front, back := names[..i], names[i + 1..];
    assert r == front + back;
    assert r[..i] == front && r[i..] == back;
    assert names == front + [w] + back;
    assert multiset(names) == multiset(front) + multiset{w} + multiset(back);
  }

  /** Splicing both lists at one index keeps `nameList` the names of `userObjects`. */
  lemma RemovalKeepsListsParallel(names: seq<string>, users: seq<Guest>, i: int)
    requires names == Names(users)
    ensures RemoveAt(names, i) == Names(RemoveAt(users, i))
  {
    if 0 <= i < |users| {
      var r, rn := RemoveAt(users, i), RemoveAt(names, i);
      assert r == users[..i] + users[i + 1..];
      assert rn == names[..i] + names[i + 1..];
      forall k | 0 <= k < |r| ensures rn[k] == r[k].name {
        if k < i {
          assert rn[k] == names[k] && r[k] == users[k];
        } else {
          assert rn[k] == names[k + 1] && r[k] == users[k + 1];
        }
      }
      assert rn == Names(r);
    }
  }

  class Slot {
    var nameList: seq<string>
    var userObjects: seq<Guest>
    var havePreviousWinner: bool
    var shouldRemoveWinner: bool
    var currentWinner: Option<Guest>
    /** The names currently in the reel container, in display order. */
    var reelItems: seq<string>
    var hooks: seq<Hook>
    const maxReelItems: nat
    /** Whether the reel container and its animation exist on the page. */
    const hasReel: bool

    /** Between spins the container is empty, or holds the previous winner alone. */
    ghost predicate Valid()
      reads this
    {
      && maxReelItems >= 1
      && (havePreviousWinner ==> |reelItems| == 1)
      && (!havePreviousWinner ==> reelItems == [])
    }

    constructor (maxReelItems: nat, removeWinner: bool, hasReel: bool)
      requires maxReelItems >= 1
      ensures Valid()
      ensures this.maxReelItems == maxReelItems && this.hasReel == hasReel
      ensures shouldRemoveWinner == removeWinner
      ensures nameList == [] && userObjects == [] && !havePreviousWinner
      ensures currentWinner == None && reelItems == [] && hooks == []
    {
      this.maxReelItems := maxReelItems;
      this.hasReel := hasReel;
      shouldRemoveWinner := removeWinner;
      nameList := [];
      userObjects := [];
      havePreviousWinner := false;
      currentWinner := None;
      reelItems := [];
      hooks := [];
    }

    /** The `names` setter: a new name list, an empty reel and a fresh reel start. */
    method SetNames(names: seq<string>)
      requires Valid()
      modifies this
      ensures Valid()
      ensures nameList == names && reelItems == [] && !havePreviousWinner
      ensures hooks == old(hooks) + [NameListChanged]
      ensures userObjects == old(userObjects) && currentWinner == old(currentWinner)
      ensures shouldRemoveWinner == old(shouldRemoveWinner)
    {
      nameList := names;
      reelItems := [];
      havePreviousWinner := false;
      hooks := hooks + [NameListChanged];
    }

    /** `setUsers`: the records and their names, in order; reel state and hooks untouched. */
    method SetUsers(users: seq<Guest>)
      requires Valid()
      modifies this
      ensures Valid()
      ensures userObjects == users && nameList == Names(users)
      ensures havePreviousWinner == old(havePreviousWinner) && reelItems == old(reelItems)
      ensures hooks == old(hooks) && currentWinner == old(currentWinner)
      ensures shouldRemoveWinner == old(shouldRemoveWinner)
    {
      userObjects := users;
      nameList := Names(users);
    }

    /** The `shouldRemoveWinnerFromNameList` setter. */
    method SetShouldRemoveWinner(removeWinner: bool)
      requires Valid()
      modifies this
      ensures Valid()
      ensures shouldRemoveWinner == removeWinner
      ensures nameList == old(nameList) && userObjects == old(userObjects)
      ensures havePreviousWinner == old(havePreviousWinner) && reelItems == old(reelItems)
      ensures hooks == old(hooks) && currentWinner == old(currentWinner)
    {
      shouldRemoveWinner := removeWinner;
    }

    /** `shuffleNames`: emits one name per step, chosen through an index array whose
        used slot is swapped to the end of the live part. */
    static method ShuffleNames(names: seq<string>, picks: seq<nat>) returns (result: seq<string>)
      requires ValidPicks(picks, |names|)
      ensures result == Draws(names, picks)
      ensures multiset(result) == multiset(names)
    {
      var keys := new nat[|names|](i => i);
      ghost var ks := keys[..];
      ShuffleInvStart(names, picks, ks);
      result := [];
      var k, n := 0, |names|;
      while k < |names| && n > 0
        invariant n == |names| - k && keys.Length == |names| && keys[..] == ks
        invariant ShuffleInv(names, picks, ks, k, result)
      {
        ks, result := ShuffleStep(names, picks, keys, ks, k, result);
        n, k := n - 1, k + 1;
      }
      ShuffleInvDone(names, picks, ks, k, result);
      DrawsPermutation(names, picks);
    }

    /** One pass of the loop body: emit the name under the picked key and swap that key
        out of the live part. */
    static method ShuffleStep(names: seq<string>, picks: seq<nat>, keys: array<nat>, ghost ks: seq<nat>,
                              k: nat, result: seq<string>) returns (ghost ks': seq<nat>, result': seq<string>)
      requires keys[..] == ks && ShuffleInv(names, picks, ks, k, result) && k < |names|
      modifies keys
      ensures keys[..] == ks' && ShuffleInv(names, picks, ks', k + 1, result')
    {
      ShuffleInvBounds(names, picks, ks, k, result);
      var i, n := picks[k], |names| - k;
      ks' := ks[n - 1 := ks[i]][i := ks[n - 1]];
      ShuffleInvStep(names, picks, ks, k, result, ks', result + [names[ks[i]]]);
      result' := result + [names[keys[i]]];
      SwapToEnd(keys, i, n);
    }

    /** Moves the used key at `i` to the last live slot `n - 1`, and that slot's key to `i`. */
    static method SwapToEnd(keys: array<nat>, i: nat, n: nat)
      requires i < n <= keys.Length
      modifies keys
      ensures keys[..] == old(keys[..])[n - 1 := old(keys[i])][i := old(keys[n - 1])]
    {
      var key, tmp := keys[i], keys[n - 1];
      keys[n - 1] := key;
      keys[i] := tmp;
    }

    /** The doubling loop: repeat the shuffled names until the reel is long enough. */
    static method PadReel(shuffled: seq<string>, maxReelItems: nat) returns (padded: seq<string>)
      ensures shuffled == [] ==> padded == []
      ensures shuffled != [] ==> |padded| >= maxReelItems && |padded| >= |shuffled|
      ensures forall j :: 0 <= j < |padded| ==> padded[j] == shuffled[j % |shuffled|]
    {
      padded := shuffled;
      if shuffled == [] {
        return;
      }
      CycleOfItself(shuffled);
      while |padded| < maxReelItems
        invariant |padded| >= |shuffled| && |padded| % |shuffled| == 0
        invariant Cycles(padded, shuffled)
        decreases maxReelItems - |padded|
      {
        DoubledCycles(padded, shuffled);
        padded := padded + padded;
      }
    }

    /** The reel of one spin: shuffle, double until long enough, cut to the reel length. */
    static method BuildReel(names: seq<string>, picks: seq<nat>, maxReelItems: nat, havePreviousWinner: bool)
      returns (reel: seq<string>)
      requires names != [] && ValidPicks(picks, |names|) && maxReelItems >= 1
      ensures reel == ReelOf(Draws(names, picks), ReelLength(maxReelItems, havePreviousWinner))
    {
      var len := ReelLength(maxReelItems, havePreviousWinner);
      var shuffled := ShuffleNames(names, picks);
      var padded := PadReel(shuffled, maxReelItems);
      reel := padded[..len];
      assert reel == ReelOf(shuffled, len);
    }

    /** `spin`, with its animation and hook awaits taken as one step. `picks` are the
        shuffle's random choices. `reel` is the sequence of names appended to the reel. */
    method Spin(picks: seq<nat>) returns (ok: bool, ghost reel: seq<string>)
      requires Valid()
      requires ValidPicks(picks, |nameList|)
      modifies this
      ensures Valid()
      ensures old(nameList) == [] ==> !ok && unchanged(this)
      ensures old(nameList) != [] && !hasReel ==>
        && !ok
        && hooks == old(hooks) + [SpinStart]
        && nameList == old(nameList) && userObjects == old(userObjects)
        && havePreviousWinner == old(havePreviousWinner) && reelItems == old(reelItems)
        && currentWinner == old(currentWinner)
      ensures old(nameList) != [] && hasReel ==>
        && ok
        && reel == ReelOf(Draws(old(nameList), picks), ReelLength(maxReelItems, old(havePreviousWinner)))
        && |old(reelItems)| + |reel| == maxReelItems
        && reelItems == [(old(reelItems) + reel)[maxReelItems - 1]]
        && currentWinner == Some(WinnerRecord(old(userObjects), WinnerName(reel)))
        && (var i := if shouldRemoveWinner && WinnerName(reel).Some?
                     then IndexOfName(old(nameList), WinnerName(reel).value) else -1;
            nameList == RemoveAt(old(nameList), i) && userObjects == RemoveAt(old(userObjects), i))
        && havePreviousWinner
        && hooks == old(hooks) + [SpinStart, SpinEnd]
      ensures shouldRemoveWinner == old(shouldRemoveWinner)
    {
      reel := [];
      if |nameList| == 0 {
        return false, reel;
      }
      if !hasReel {
        hooks := hooks + [SpinStart];
        return false, reel;
      }
      var randomNames := BuildReel(nameList, picks, maxReelItems, havePreviousWinner);
      reel := randomNames;
      Settle(randomNames);
      hooks := hooks + [SpinStart, SpinEnd];
      ok := true;
    }

    /** The end of a spin: pick the winner from the reel's last name, drop it from the
        lists when asked to, and keep only the reel's last item on show. */
    method Settle(randomNames: seq<string>)
      requires Valid() && |reelItems| + |randomNames| == maxReelItems
      modifies this
      ensures Valid()
      ensures reelItems == [(old(reelItems) + randomNames)[maxReelItems - 1]]
      ensures currentWinner == Some(WinnerRecord(old(userObjects), WinnerName(randomNames)))
      ensures var i := if shouldRemoveWinner && WinnerName(randomNames).Some?
                       then IndexOfName(old(nameList), WinnerName(randomNames).value) else -1;
        nameList == RemoveAt(old(nameList), i) && userObjects == RemoveAt(old(userObjects), i)
      ensures havePreviousWinner
      ensures hooks == old(hooks) && shouldRemoveWinner == old(shouldRemoveWinner)
    {
      var shown := reelItems + randomNames;
      var winnerName := WinnerName(randomNames);
      // A winner missing from the list gives -1, which `RemoveAt` leaves in place.
      var winnerIndex := if shouldRemoveWinner && winnerName.Some?
                         then IndexOfName(nameList, winnerName.value) else -1;
      currentWinner := Some(WinnerRecord(userObjects, winnerName));
      nameList, userObjects := RemoveAt(nameList, winnerIndex), RemoveAt(userObjects, winnerIndex);
      reelItems := [shown[|shown| - 1]];
      havePreviousWinner := true;
    }
  }

  /** Every slot of the index array names a position of `names`. */
  ghost predicate ValidKeys(keys: seq<nat>, n: nat)
  {
    forall j :: 0 <= j < |keys| ==> keys[j] < n
  }

  /** The values of `names[keys[j]]` over the live part of the index array. */
  ghost function Gather(names: seq<string>, keys: seq<nat>): (r: seq<string>)
    requires ValidKeys(keys, |names|)
    ensures |r| == |keys|
  {
    seq(|keys|, j requires 0 <= j < |keys| => names[keys[j]])
  }

  /** The state of the loop of `shuffleNames` after `k` steps: the first `n = |names| - k`
      slots of the index array hold the pool still to draw from, and the names emitted so
      far followed by the draws from that pool are the draws from the whole list. */
  ghost predicate ShuffleInv(names: seq<string>, picks: seq<nat>, keys: seq<nat>, k: nat, result: seq<string>)
  {
    && k <= |names| && |keys| == |names|
    && ValidPicks(picks, |names|)
    && ValidKeys(keys, |names|)
    && ValidPicks(picks[k..], |names| - k)
    && result + Draws(Gather(names, keys[..|names| - k]), picks[k..]) == Draws(names, picks)
  }

  /** Before the loop: the identity index array, nothing emitted. */
  lemma ShuffleInvStart(names: seq<string>, picks: seq<nat>, keys: seq<nat>)
    requires ValidPicks(picks, |names|) && |keys| == |names|
    requires forall j :: 0 <= j < |keys| ==> keys[j] == j
    ensures ShuffleInv(names, picks, keys, 0, [])
  {
    assert keys[..|names|] == keys;
    assert Gather(names, keys) == names;
    assert picks[0..] == picks;
    assert [] + Draws(names, picks) == Draws(names, picks);
  }

  /** Inside the loop the pick is below the live length and its key indexes a name. */
  lemma ShuffleInvBounds(names: seq<string>, picks: seq<nat>, keys: seq<nat>, k: nat, result: seq<string>)
    requires ShuffleInv(names, picks, keys, k, result) && k < |names|
    ensures picks[k] < |names| - k && keys[picks[k]] < |names|
  {
    assert picks[k..][0] == picks[k];
  }

  /** One step of the loop on the index array is one step of `Draws`. */
  lemma ShuffleInvStep(names: seq<string>, picks: seq<nat>, keys: seq<nat>, k: nat, result: seq<string>,
                       after: seq<nat>, emitted: seq<string>)
    requires ShuffleInv(names, picks, keys, k, result) && k < |names|
    requires picks[k] < |names| - k && keys[picks[k]] < |names|
    requires var n, i := |names| - k, picks[k];
      after == keys[n - 1 := keys[i]][i := keys[n - 1]] && emitted == result + [names[keys[i]]]
    ensures ShuffleInv(names, picks, after, k + 1, emitted)
  {
    var n, i := |names| - k, picks[k];
    var pool := Gather(names, keys[..n]);
    assert picks[k..][0] == i;
    assert picks[k..][1..] == picks[k + 1..];
    assert Gather(names, after[..n - 1]) == SwapRemove(pool, i);
    assert Draws(pool, picks[k..]) == [names[keys[i]]] + Draws(SwapRemove(pool, i), picks[k + 1..]);
  }

  /** When the loop stops every name has been emitted in the order `Draws` gives. */
  lemma ShuffleInvDone(names: seq<string>, picks: seq<nat>, keys: seq<nat>, k: nat, result: seq<string>)
    requires ShuffleInv(names, picks, keys, k, result) && (k == |names| || |names| - k == 0)
    ensures result == Draws(names, picks)
  {
    assert picks[k..] == [];
  }

  /** `s` is `base` repeated: position j holds `base[j mod |base|]`. */
  ghost predicate Cycles(s: seq<string>, base: seq<string>)
    requires base != []
  {
    forall j :: 0 <= j < |s| ==> s[j] == base[j % |base|]
  }

  lemma CycleOfItself(base: seq<string>)
    requires base != []
    ensures Cycles(base, base)
  {
    forall j | 0 <= j < |base| ensures base[j] == base[j % |base|] {
      ModUnique(j, |base|, 0, j);
    }
  }

  /** Doubling a whole number of repetitions of `base` gives more repetitions of it. */
  lemma DoubledCycles(s: seq<string>, base: seq<string>)
    requires base != [] && |s| % |base| == 0 && Cycles(s, base)
    ensures Cycles(s + s, base) && (|s| + |s|) % |base| == 0
  {
    var n := |base|;
    forall j | 0 <= j < 2 * |s| ensures (s + s)[j] == base[j % n] {
      if j >= |s| {
        assert (s + s)[j] == s[j - |s|];
        ModShiftBack(j, |s|, n);
      }
    }
    ModShiftLen(|s|, |s|, n);
  }
}
