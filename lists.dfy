/**
 * `list.remove` and the observer dictionaries of the servers and clients:
 * a dictionary from event to the list of its observers, where a missing
 * event reads as the empty list.
 */
module Lists {
  import opened Wrappers

  /** `xs.remove(x)`: the list without its first `x`; None (ValueError) when `x` is absent. */
  function RemoveFirst<T(==)>(xs: seq<T>, x: T): (r: Option<seq<T>>)
    ensures r.None? <==> x !in xs
    ensures r.Some? ==> |r.value| == |xs| - 1
    ensures r.Some? ==> forall k :: 0 <= k < |r.value| ==> r.value[k] in xs
  {
    if xs == [] then None
    else if xs[0] == x then Some(xs[1..])
    else
      match RemoveFirst(xs[1..], x)
      case None => None
      case Some(rest) => Some([xs[0]] + rest)
  }

  /** Removing one element keeps every other element's membership. */
  lemma {:induction false} RemoveFirstKeeps<T>(xs: seq<T>, x: T, y: T)
    requires x in xs && y != x
    ensures y in RemoveFirst(xs, x).value <==> y in xs
  {
    if xs[0] != x {
      RemoveFirstKeeps(xs[1..], x, y);
      assert xs == [xs[0]] + xs[1..];
    }
  }

  /** Removing the first `x` cuts out exactly the element at its first index, keeping the others in order. */
  lemma {:induction false} RemoveFirstAt<T>(xs: seq<T>, x: T, i: nat)
    requires i < |xs| && xs[i] == x && forall j :: 0 <= j < i ==> xs[j] != x
    ensures RemoveFirst(xs, x) == Some(xs[..i] + xs[i + 1..])
  {
    if i == 0 {
      assert xs[..0] + xs[1..] == xs[1..];
    } else {
      assert forall j :: 0 <= j < i - 1 ==> xs[1..][j] == xs[j + 1];
      RemoveFirstAt(xs[1..], x, i - 1);
      assert [xs[0]] + (xs[1..][..i - 1] + xs[1..][i..]) == xs[..i] + xs[i + 1..];
    }
  }

  /** Appending then removing the same element gives the list back when it was not there before. */
  lemma {:induction false} RemoveAfterAppend<T>(xs: seq<T>, x: T)
    requires x !in xs
    ensures RemoveFirst(xs + [x], x) == Some(xs)
  {
    if xs != [] {
      assert (xs + [x])[1..] == xs[1..] + [x];
      RemoveAfterAppend(xs[1..], x);
      assert [xs[0]] + xs[1..] == xs;
    }
  }

  /** The observers of an event: `observers.get(event, []) or []`. */
  function ObserversOf<K, O>(table: map<K, seq<O>>, event: K): seq<O> {
    if event in table then table[event] else []
  }

  /** `attach`: the observer goes to the end of the event's list. */
  function Attached<K(!new), O>(table: map<K, seq<O>>, observer: O, event: K): (t: map<K, seq<O>>)
    ensures ObserversOf(t, event) == ObserversOf(table, event) + [observer]
    ensures forall e :: e != event ==> ObserversOf(t, e) == ObserversOf(table, e)
  {
    table[event := ObserversOf(table, event) + [observer]]
  }

  /** `detach`: the event's list without the first occurrence; None (ValueError) when the observer is not there. */
  function Detached<K(!new), O(==)>(table: map<K, seq<O>>, observer: O, event: K): (t: Option<map<K, seq<O>>>)
    ensures t.None? <==> observer !in ObserversOf(table, event)
    ensures t.Some? ==> ObserversOf(t.value, event) == RemoveFirst(ObserversOf(table, event), observer).value
    ensures t.Some? ==> forall e :: e != event ==> ObserversOf(t.value, e) == ObserversOf(table, e)
  {
    match RemoveFirst(ObserversOf(table, event), observer)
    case None => None
    case Some(rest) => Some(table[event := rest])
  }

  /** Detaching a freshly attached observer restores every event's list. */
  lemma DetachUndoesAttach<K(!new), O>(table: map<K, seq<O>>, observer: O, event: K)
    requires observer !in ObserversOf(table, event)
    ensures Detached(Attached(table, observer, event), observer, event).Some?
    ensures forall e :: ObserversOf(Detached(Attached(table, observer, event), observer, event).value, e) == ObserversOf(table, e)
  {
    RemoveAfterAppend(ObserversOf(table, event), observer);
  }
  /** The index of the first element satisfying `p` (a query's `.first()`), None when there is none. */
  function FirstWhere<T>(xs: seq<T>, p: T -> bool): (r: Option<nat>)
    ensures r.Some? ==> r.value < |xs| && p(xs[r.value]) && forall j :: 0 <= j < r.value ==> !p(xs[j])
    ensures r.None? ==> forall j :: 0 <= j < |xs| ==> !p(xs[j])
  {
    if xs == [] then None
    else if p(xs[0]) then Some(0)
    else
      match FirstWhere(xs[1..], p)
      case None => None
      case Some(i) => Some(i + 1)
  }

  /** The elements satisfying `p`, in order (a filtered query). */
  function Filter<T>(xs: seq<T>, p: T -> bool): (r: seq<T>)
    ensures forall i :: 0 <= i < |r| ==> r[i] in xs && p(r[i])
    ensures forall i :: 0 <= i < |xs| && p(xs[i]) ==> xs[i] in r
    ensures |r| <= |xs|
  {
    if xs == [] then []
    else (if p(xs[0]) then [xs[0]] else []) + Filter(xs[1..], p)
  }

  /** How many elements satisfy `p` (a query's `.count()`). */
  function Count<T>(xs: seq<T>, p: T -> bool): (n: nat)
    ensures n <= |xs|
  {
    |Filter(xs, p)|
  }

  /** Filtering distributes over concatenation. */
  lemma {:induction false} FilterAppend<T>(xs: seq<T>, ys: seq<T>, p: T -> bool)
    ensures Filter(xs + ys, p) == Filter(xs, p) + Filter(ys, p)
  {
    if xs != [] {
      assert (xs + ys)[1..] == xs[1..] + ys;
      FilterAppend(xs[1..], ys, p);
    } else {
      assert xs + ys == ys;
    }
  }

  /** Adding one row changes a count by one exactly when the row matches. */
  lemma CountSnoc<T>(xs: seq<T>, x: T, p: T -> bool)
    ensures Count(xs + [x], p) == Count(xs, p) + (if p(x) then 1 else 0)
  {
    FilterAppend(xs, [x], p);
    assert [x][1..] == [];
  }

  /** Filtering with a test nothing passes leaves nothing; one everything passes leaves the list. */
  lemma {:induction false} FilterNone<T>(xs: seq<T>, p: T -> bool)
    requires forall j :: 0 <= j < |xs| ==> !p(xs[j])
    ensures Filter(xs, p) == []
  {
    if xs != [] {
      FilterNone(xs[1..], p);
    }
  }

  lemma {:induction false} FilterAll<T>(xs: seq<T>, p: T -> bool)
    requires forall j :: 0 <= j < |xs| ==> p(xs[j])
    ensures Filter(xs, p) == xs
  {
    if xs != [] {
      FilterAll(xs[1..], p);
    }
  }

  /** A sequence back to front (a query ordered by descending creation). */
  function Reversed<T>(xs: seq<T>): (r: seq<T>)
    ensures |r| == |xs| && forall i :: 0 <= i < |xs| ==> r[i] == xs[|xs| - 1 - i]
  {
    if xs == [] then [] else [xs[|xs| - 1]] + Reversed(xs[..|xs| - 1])
  }

  /** The first `limit` elements of a sequence (`[:limit]`, `.limit(limit)`). */
  function Limit<T>(xs: seq<T>, limit: nat): (r: seq<T>)
    ensures |r| == if |xs| < limit then |xs| else limit
    ensures r == xs[..|r|]
  {
    if |xs| <= limit then xs else xs[..limit]
  }

  /** The first `limit` elements back to front are the last ones, from the end. */
  lemma LimitReversed<T>(xs: seq<T>, limit: nat)
    ensures var r := Limit(Reversed(xs), limit);
      |r| <= |xs| && forall k :: 0 <= k < |r| ==> r[k] == xs[|xs| - 1 - k]
  {
    var r := Limit(Reversed(xs), limit);
    forall k | 0 <= k < |r|
      ensures r[k] == xs[|xs| - 1 - k]
    {
      assert r[k] == Reversed(xs)[k];
    }
  }
}
