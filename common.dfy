/** Values shared by the draw pages and the server: optional values, the outcome of
    a call that may throw, the guest record and the order-preserving filter. */
module Common {

  datatype Option<T> = None | Some(value: T)

  /** The outcome of an awaited call that may throw: its value, or the error message. */
  datatype Result<T> = Ok(value: T) | Err(msg: string)

  /** JavaScript truthiness of a value that is a string or undefined/null. */
  predicate Truthy(s: Option<string>)
  {
    s.Some? && s.value != ""
  }

  /** A guest record `{name, pictureUrl, lineId}`. A missing name is the empty string
      (both are falsy); `lineId` is present only on guests stored by the local fallback. */
  datatype Guest = Guest(name: string, pictureUrl: Option<string>, lineId: Option<string>)

  /** A LINE profile: the user id, display name and picture; the id and the picture may
      be absent from the profile answer. */
  datatype Profile = Profile(userId: Option<string>, displayName: string, pictureUrl: Option<string>)

  /** A value written into a sheet row: an undefined value becomes an empty cell. */
  function OrEmpty(v: Option<string>): (s: string)
    ensures v.Some? ==> s == v.value
    ensures v.None? ==> s == ""
  {
    if v.Some? then v.value else ""
  }

  /** An element of a decoded JSON guest list: a bare string or a guest object. */
  datatype Entry = Text(s: string) | Record(guest: Guest)

  /** `typeof g === 'string' ? { name: g, pictureUrl: null } : g` */
  function Normalise(e: Entry): Guest
  {
    match e
    case Text(s) => Guest(s, None, None)
    case Record(g) => g
  }

  /** Normalise every entry, keeping the order. */
  function NormaliseAll(es: seq<Entry>): (gs: seq<Guest>)
    ensures |gs| == |es|
    ensures forall i :: 0 <= i < |es| && es[i].Text? ==> gs[i] == Guest(es[i].s, None, None)
    ensures forall i :: 0 <= i < |es| && es[i].Record? ==> gs[i] == es[i].guest
  {
    if es == [] then [] else [Normalise(es[0])] + NormaliseAll(es[1..])
  }

  /** `Array.prototype.filter`: the elements satisfying `p`, in their order. */
  function Filter<T(!new)>(s: seq<T>, p: T -> bool): (r: seq<T>)
    ensures |r| <= |s|
    ensures forall x :: x in r <==> x in s && p(x)
  {
    if s == [] then [] else (if p(s[0]) then [s[0]] else []) + Filter(s[1..], p)
  }

  /** `Array.prototype.findIndex`: the first position whose element satisfies `p`, or -1. */
  function FindIndex<T>(s: seq<T>, p: T -> bool): (i: int)
    ensures -1 <= i < |s|
    ensures i == -1 <==> forall j :: 0 <= j < |s| ==> !p(s[j])
    ensures 0 <= i ==> p(s[i]) && forall j :: 0 <= j < i ==> !p(s[j])
  {
    if s == [] then -1
    else if p(s[0]) then 0
    else
      var j := FindIndex(s[1..], p);
      if j == -1 then -1 else j + 1
  }

  /** Filtering distributes over concatenation, so the kept elements stay in input order. */
  lemma {:induction false} FilterAppend<T(!new)>(s: seq<T>, t: seq<T>, p: T -> bool)
    ensures Filter(s + t, p) == Filter(s, p) + Filter(t, p)
  {
    if s == [] {
      assert s + t == t;
    } else {
      assert (s + t)[1..] == s[1..] + t;
      FilterAppend(s[1..], t, p);
    }
  }

  /** A list whose elements all satisfy `p` is kept whole. */
  lemma {:induction false} FilterKeepsAll<T(!new)>(s: seq<T>, p: T -> bool)
    requires forall i :: 0 <= i < |s| ==> p(s[i])
    ensures Filter(s, p) == s
  {
    if s != [] {
      FilterKeepsAll(s[1..], p);
    }
  }
}
