/** The two JavaScript array built-ins both services are written with:
    `find`/`findIndex` (the first element satisfying a predicate) and
    `splice(i, 1)` (remove the element at index i, keeping the order of the rest). */
module ArrayOps {

  datatype Option<T> = None | Some(value: T)

  /** Index of the first element of `s` satisfying `p`, or None when there is none. */
  function FindIndex<T>(s: seq<T>, p: T -> bool): (r: Option<nat>)
    ensures r.Some? ==> r.value < |s| && p(s[r.value])
    ensures r.Some? ==> forall j :: 0 <= j < r.value ==> !p(s[j])
    ensures r.None? <==> forall j :: 0 <= j < |s| ==> !p(s[j])
  {
    if |s| == 0 then None
    else if p(s[0]) then Some(0)
    else match FindIndex(s[1..], p)
      case None => None
      case Some(k) => Some(k + 1)
  }

  /** Two scans that see the same verdict at every position find the same index. */
  lemma FindIndexAgrees<T, U>(a: seq<T>, p: T -> bool, b: seq<U>, q: U -> bool)
    requires |a| == |b|
    requires forall j :: 0 <= j < |a| ==> p(a[j]) == q(b[j])
    ensures FindIndex(a, p) == FindIndex(b, q)
  {
  }

  /** `splice(i, 1)`: the sequence without its element at index i. */
  function RemoveAt<T>(s: seq<T>, i: nat): (r: seq<T>)
    requires i < |s|
    ensures |r| == |s| - 1
    ensures forall j :: 0 <= j < i ==> r[j] == s[j]
    ensures forall j :: i <= j < |r| ==> r[j] == s[j + 1]
  {
    s[..i] + s[i + 1..]
  }

  /** Removing an element before the end commutes with appending at the end. */
  lemma RemoveAtAppend<T>(s: seq<T>, i: nat, x: T)
    requires i < |s|
    ensures RemoveAt(s + [x], i) == RemoveAt(s, i) + [x]
  {
    var l, r := RemoveAt(s + [x], i), RemoveAt(s, i) + [x];
    assert |l| == |r|;
    forall j | 0 <= j < |l| ensures l[j] == r[j] {
      if j < i {
      } else if j < |l| - 1 {
      } else {
        assert l[j] == (s + [x])[j + 1];
      }
    }
  }

  /** The element at the end of a non-empty sequence (what a pushed object is found as). */
  function Last<T>(s: seq<T>): (x: T)
    requires |s| > 0
    ensures x in s
  {
    s[|s| - 1]
  }
}
