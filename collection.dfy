/**
 * A document collection held as the sequence of its documents in insertion
 * order, and the driver operations the services call on it. `insertOne`
 * appends; `find(filter)` keeps the matching documents in stored order
 * (Filter); `find(filter).first()` takes the first of them (First);
 * `findOneAndReplace` and `findOneAndDelete` act on the first match only
 * and return the document as it was before (ReplaceFirst, DeleteFirst).
 * A filter is a predicate on the stored record.
 */
module Collection {
  import opened Wrappers

  /** Some stored record satisfies the filter. */
  predicate AnyMatch<T>(s: seq<T>, p: T -> bool) {
    exists i :: 0 <= i < |s| && p(s[i])
  }

  /** The position of the first record that satisfies the filter. */
  function FirstIndex<T>(s: seq<T>, p: T -> bool): (r: Option<nat>)
    ensures r.None? <==> !AnyMatch(s, p)
    ensures r.Some? ==> r.value < |s| && p(s[r.value])
    ensures r.Some? ==> forall j :: 0 <= j < r.value ==> !p(s[j])
  {
    if |s| == 0 then None
    else if p(s[0]) then Some(0)
    else match FirstIndex(s[1..], p)
      case None =>
        assert forall i :: 1 <= i < |s| ==> s[i] == s[1..][i - 1];
        None
      case Some(i) => Some(i + 1)
  }

  /** A matching position with no match before it is the first index. */
  lemma FirstIndexUnique<T>(s: seq<T>, p: T -> bool, i: nat)
    requires i < |s| && p(s[i])
    requires forall j :: 0 <= j < i ==> !p(s[j])
    ensures FirstIndex(s, p) == Some(i)
  {
  }

  /** `find(filter).first()`: the first matching record, or None. */
  function First<T>(s: seq<T>, p: T -> bool): (r: Option<T>)
    ensures r.Some? <==> AnyMatch(s, p)
    ensures r.Some? ==> p(r.value)
    ensures r.Some? ==> exists i :: 0 <= i < |s| && s[i] == r.value && forall j :: 0 <= j < i ==> !p(s[j])
  {
    match FirstIndex(s, p)
    case None => None
    case Some(i) => Some(s[i])
  }

  /** `find(filter)`: the matching records, in stored order. */
  function Filter<T>(s: seq<T>, p: T -> bool): (r: seq<T>)
    ensures |r| <= |s|
  {
    if |s| == 0 then [] else (if p(s[0]) then [s[0]] else []) + Filter(s[1..], p)
  }

  /**
   * The filtered records are exactly the matching ones, each as many times
   * as it is stored.
   */
  lemma {:induction false} FilterContents<T(!new)>(s: seq<T>, p: T -> bool)
    ensures forall x :: x in Filter(s, p) <==> x in s && p(x)
    ensures forall x :: multiset(Filter(s, p))[x] == if p(x) then multiset(s)[x] else 0
  {
    if |s| > 0 {
      FilterContents(s[1..], p);
      assert s == [s[0]] + s[1..];
    }
  }

  /** `findOneAndReplace`: the first match is replaced by `x` and returned as it was. */
  function ReplaceFirst<T>(s: seq<T>, p: T -> bool, x: T): (r: (Option<T>, seq<T>))
    ensures !AnyMatch(s, p) ==> r == (None, s)
    ensures AnyMatch(s, p) ==>
      exists i :: 0 <= i < |s| && p(s[i]) && (forall j :: 0 <= j < i ==> !p(s[j])) && r == (Some(s[i]), s[i := x])
  {
    match FirstIndex(s, p)
    case None => (None, s)
    case Some(i) => (Some(s[i]), s[i := x])
  }

  /** `findOneAndDelete`: the first match is removed and returned. */
  function DeleteFirst<T>(s: seq<T>, p: T -> bool): (r: (Option<T>, seq<T>))
    ensures !AnyMatch(s, p) ==> r == (None, s)
    ensures AnyMatch(s, p) ==>
      exists i :: 0 <= i < |s| && p(s[i]) && (forall j :: 0 <= j < i ==> !p(s[j])) && r == (Some(s[i]), s[..i] + s[i + 1..])
    ensures r.0.Some? ==> multiset(r.1) + multiset{r.0.value} == multiset(s)
  {
    match FirstIndex(s, p)
    case None => (None, s)
    case Some(i) =>
      assert s == s[..i] + [s[i]] + s[i + 1..];
      (Some(s[i]), s[..i] + s[i + 1..])
  }

  /** Filtering distributes over appending documents, so stored order is kept. */
  lemma {:induction false} FilterAppend<T>(s: seq<T>, t: seq<T>, p: T -> bool)
    ensures Filter(s + t, p) == Filter(s, p) + Filter(t, p)
  {
    if |s| == 0 {
      assert s + t == t;
    } else {
      var head := if p(s[0]) then [s[0]] else [];
      assert (s + t)[0] == s[0];
      assert (s + t)[1..] == s[1..] + t;
      calc {
        Filter(s + t, p);
        head + Filter((s + t)[1..], p);
        head + Filter(s[1..] + t, p);
        { FilterAppend(s[1..], t, p); }
        head + (Filter(s[1..], p) + Filter(t, p));
        (head + Filter(s[1..], p)) + Filter(t, p);
        Filter(s, p) + Filter(t, p);
      }
    }
  }

  /** After appending, the first match is still an earlier one when there is one. */
  lemma FirstAppend<T>(s: seq<T>, t: seq<T>, p: T -> bool)
    ensures First(s + t, p) == if AnyMatch(s, p) then First(s, p) else First(t, p)
  {
    if AnyMatch(s, p) {
      var i := FirstIndex(s, p).value;
      FirstIndexUnique(s + t, p, i);
    } else if AnyMatch(t, p) {
      var k := FirstIndex(t, p).value;
      forall j | 0 <= j < |s| + k
        ensures !p((s + t)[j])
      {
        if j >= |s| { assert (s + t)[j] == t[j - |s|]; }
      }
      FirstIndexUnique(s + t, p, |s| + k);
    } else {
      forall j | 0 <= j < |s + t|
        ensures !p((s + t)[j])
      {
        if j >= |s| { assert (s + t)[j] == t[j - |s|]; }
      }
    }
  }
}
