/** The Python list idioms every handler is built from: a `for` loop that
    stops at the first element carrying a given id (and leaves its loop
    variable bound afterwards), `list.remove`, and ids kept in increasing
    order. */
module Lists {

  datatype Option<+T> = None | Some(value: T)

  /** Position of the first occurrence of `x` in `ids`, or |ids| when there is none. */
  function FirstIndex(ids: seq<int>, x: int): (k: nat)
    ensures k <= |ids|
    ensures k < |ids| <==> x in ids
    ensures k < |ids| ==> ids[k] == x
    ensures forall j :: 0 <= j < k ==> ids[j] != x
  {
    if ids == [] then 0
    else if ids[0] == x then 0
    else 1 + FirstIndex(ids[1..], x)
  }

  /** The element the loop variable of
        for v in s:
            if v["id"] == x: break
      is left bound to, as a position in `s` (here given by its ids): the
      first match; the last element when nothing matches, because Python
      keeps a loop variable bound after the loop ends; and no element at all
      (None) when `s` is empty, since then the variable is never assigned. */
  function LoopStop(ids: seq<int>, x: int): (stop: Option<nat>)
    ensures stop.None? <==> ids == []
    ensures stop.Some? ==> stop.value < |ids|
    ensures stop.Some? && x in ids ==>
      ids[stop.value] == x && forall j :: 0 <= j < stop.value ==> ids[j] != x
    ensures stop.Some? && x !in ids ==> stop.value == |ids| - 1
  {
    if ids == [] then None
    else
      var k := FirstIndex(ids, x);
      Some(if k < |ids| then k else |ids| - 1)
  }

  /** The scanning loop itself, run step by step. */
  method ScanFor(ids: seq<int>, x: int) returns (stop: Option<nat>)
    ensures stop == LoopStop(ids, x)
  {
    stop := None;
    var i := 0;
    while i < |ids|
      invariant 0 <= i <= |ids|
      invariant stop == if i == 0 then None else Some(i - 1)
      invariant forall j :: 0 <= j < i ==> ids[j] != x
    {
      stop := Some(i);
      if ids[i] == x {
        break;
      }
      i := i + 1;
    }
  }

  /** Python's `list.remove(x)`: drops the first element equal to `x`
      (comparing values, not identities). */
  function RemoveValue<T(==)>(s: seq<T>, x: T): (r: seq<T>)
    requires x in s
    ensures |r| == |s| - 1
    ensures multiset(r) == multiset(s) - multiset{x}
  {
    assert s == [s[0]] + s[1..];
    if s[0] == x then s[1..]
    else [s[0]] + RemoveValue(s[1..], x)
  }

  /** When no element before position k equals s[k], removing the value s[k]
      removes exactly position k. */
  lemma {:induction false} RemoveValueAt<T>(s: seq<T>, k: nat)
    requires k < |s|
    requires forall j :: 0 <= j < k ==> s[j] != s[k]
    ensures RemoveValue(s, s[k]) == s[..k] + s[k + 1..]
  {
    if k > 0 {
      var t := s[1..];
      assert t[k - 1] == s[k];
      forall j | 0 <= j < k - 1 ensures t[j] != t[k - 1] {
        assert t[j] == s[j + 1];
      }
      RemoveValueAt(t, k - 1);
      assert s[0] != s[k];
      SplitAround(s, k);
    }
  }

  /** Dropping position k > 0 of s is keeping s[0] and dropping position k - 1 of s[1..]. */
  lemma SplitAround<T>(s: seq<T>, k: nat)
    requires 0 < k < |s|
    ensures s[..k] + s[k + 1..] == [s[0]] + (s[1..][..k - 1] + s[1..][k..])
  {
  }

  ghost predicate StrictlyIncreasing(ids: seq<int>) {
    forall i, j :: 0 <= i < j < |ids| ==> ids[i] < ids[j]
  }

  /** In a strictly increasing id list the last id is the largest, so one
      more than it is an id the list does not hold. */
  lemma {:induction false} LastIsMaximum(ids: seq<int>)
    requires StrictlyIncreasing(ids) && ids != []
    ensures forall j :: 0 <= j < |ids| ==> ids[j] <= ids[|ids| - 1]
    ensures ids[|ids| - 1] + 1 !in ids
  {
    assert forall j :: 0 <= j < |ids| - 1 ==> ids[j] < ids[|ids| - 1];
  }

  /** Appending an id above the last keeps the list strictly increasing. */
  lemma {:induction false} IncreasingAppend(ids: seq<int>, x: int)
    requires StrictlyIncreasing(ids)
    requires ids == [] || ids[|ids| - 1] < x
    ensures StrictlyIncreasing(ids + [x])
  {
    if ids != [] {
      LastIsMaximum(ids);
    }
  }

  /** Removing one position keeps a strictly increasing list strictly increasing. */
  lemma {:induction false} IncreasingRemoveAt(ids: seq<int>, k: nat)
    requires StrictlyIncreasing(ids) && k < |ids|
    ensures StrictlyIncreasing(ids[..k] + ids[k + 1..])
  {
    var r := ids[..k] + ids[k + 1..];
    forall i, j | 0 <= i < j < |r| ensures r[i] < r[j] {
      var i' := if i < k then i else i + 1;
      var j' := if j < k then j else j + 1;
      assert r[i] == ids[i'] && r[j] == ids[j'];
    }
  }

  /** In a strictly increasing list an id occurs at most once, so the first
      occurrence is the only one. */
  lemma {:induction false} IncreasingUnique(ids: seq<int>, k: nat)
    requires StrictlyIncreasing(ids) && k < |ids|
    ensures FirstIndex(ids, ids[k]) == k
    ensures forall j :: 0 <= j < |ids| && j != k ==> ids[j] != ids[k]
  {
  }
}
