/**
 * The few java.util operations the scheduler relies on, stated on sequences:
 * Collections.max, ArrayList.remove(int), Collection.remove(Object) and
 * LinkedHashSet.add.
 */
module Lists {

  /** Collections.max over a non-empty list of priorities. */
  function MaxOf(s: seq<int>): (m: int)
    requires |s| > 0
    ensures m in s
    ensures forall i :: 0 <= i < |s| ==> s[i] <= m
  {
    if |s| == 1 then s[0]
    else
      var rest := MaxOf(s[1..]);
      assert forall i :: 1 <= i < |s| ==> s[i] == s[1..][i - 1];
      if s[0] < rest then rest else s[0]
  }

  /** The maximum is the one element of s that bounds all others. */
  lemma MaxOfUnique(s: seq<int>, m: int)
    requires m in s
    requires forall i :: 0 <= i < |s| ==> s[i] <= m
    ensures MaxOf(s) == m
  {
    var k :| 0 <= k < |s| && s[k] == MaxOf(s);
  }

  /** Appending the current maximum does not change the maximum. */
  lemma MaxOfAppendMax(s: seq<int>)
    requires |s| > 0
    ensures MaxOf(s + [MaxOf(s)]) == MaxOf(s)
  {
    var t := s + [MaxOf(s)];
    assert forall i :: 0 <= i < |t| ==> t[i] <= MaxOf(s);
    assert t[|s|] == MaxOf(s);
    MaxOfUnique(t, MaxOf(s));
  }

  /** ArrayList.remove(int): the element at i goes, later ones shift left by one. */
  function RemoveAt<T>(s: seq<T>, i: nat): (r: seq<T>)
    requires i < |s|
    ensures |r| == |s| - 1
    ensures forall j :: 0 <= j < i ==> r[j] == s[j]
    ensures forall j :: i <= j < |r| ==> r[j] == s[j + 1]
    ensures multiset(r) == multiset(s) - multiset{s[i]}
  {
    assert s == s[..i] + [s[i]] + s[i + 1..];
    s[..i] + s[i + 1..]
  }

  /** Position of the first occurrence of x. */
  function IndexOf<T(==)>(s: seq<T>, x: T): (k: nat)
    requires x in s
    ensures k < |s| && s[k] == x
    ensures forall j :: 0 <= j < k ==> s[j] != x
  {
    if s[0] == x then 0 else 1 + IndexOf(s[1..], x)
  }

  /** Collection.remove(Object): one occurrence of x goes (the first); absent x changes nothing. */
  function RemoveFirst<T(==)>(s: seq<T>, x: T): (r: seq<T>)
    ensures multiset(r) == multiset(s) - multiset{x}
    ensures |r| == if x in s then |s| - 1 else |s|
    ensures forall i :: 0 <= i < |r| ==> r[i] in s
  {
    if x in s then RemoveAt(s, IndexOf(s, x)) else s
  }

  /** No element occurs twice: the shape of a Java Set kept as a list. */
  predicate NoDup<T(==)>(s: seq<T>) {
    forall i, j :: 0 <= i < j < |s| ==> s[i] != s[j]
  }

  /**
   * LinkedHashSet.add: appends x unless it is already present. Insertion
   * order is kept: the old elements stay in front, in their order.
   */
  function AddIfAbsent<T(==)>(s: seq<T>, x: T): (r: seq<T>)
    ensures NoDup(s) ==> NoDup(r)
    ensures x in r
    ensures |s| <= |r| <= |s| + 1 && r[..|s|] == s
    ensures |r| == |s| + 1 ==> r[|s|] == x
    ensures forall i :: 0 <= i < |s| ==> s[i] in r
    ensures forall i :: 0 <= i < |r| ==> r[i] in s || r[i] == x
  {
    if x in s then s else s + [x]
  }

  /** Removing from a list without duplicates removes the element entirely and nothing else. */
  lemma RemoveFirstFromSet<T>(s: seq<T>, x: T)
    requires NoDup(s)
    ensures NoDup(RemoveFirst(s, x))
    ensures x !in RemoveFirst(s, x)
    ensures forall i :: 0 <= i < |s| && s[i] != x ==> s[i] in RemoveFirst(s, x)
    ensures forall i :: 0 <= i < |RemoveFirst(s, x)| ==> RemoveFirst(s, x)[i] in s
  {
    var r := RemoveFirst(s, x);
    if x in s {
      var k := IndexOf(s, x);
      forall j | 0 <= j < |r|
        ensures r[j] in s && r[j] != x
      {
        if j < k { assert r[j] == s[j] && j != k; } else { assert r[j] == s[j + 1] && j + 1 != k; }
      }
      forall j | 0 <= j < |s| && s[j] != x
        ensures s[j] in r
      {
        if j < k { assert r[j] == s[j]; } else { assert j != k; assert r[j - 1] == s[j]; }
      }
      forall i, j | 0 <= i < j < |r|
        ensures r[i] != r[j]
      {
        var i' := if i < k then i else i + 1;
        var j' := if j < k then j else j + 1;
        assert r[i] == s[i'] && r[j] == s[j'] && i' < j';
      }
    }
  }
}
