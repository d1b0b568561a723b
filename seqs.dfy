/** The array helpers the engine is written with: `Array.prototype.filter`,
    `flat`, `removeDup` (a `Set` round trip) and `filterCId`. */
module Seqs {

  /** A nullable value: `T | null` in the engine. */
  datatype Option<+T> = None | Some(value: T)

  ghost predicate NoDup<T>(s: seq<T>) {
    forall i, j :: 0 <= i < j < |s| ==> s[i] != s[j]
  }

  /** `s.filter(p)`: the elements of `s` that satisfy `p`, in order. */
  function Filter<T(!new)>(s: seq<T>, p: T -> bool): (r: seq<T>)
    ensures |r| <= |s|
    ensures forall x :: x in r <==> x in s && p(x)
    ensures NoDup(s) ==> NoDup(r)
  {
    if s == [] then []
    else
      var r' := Filter(s[..|s| - 1], p);
      assert forall x :: x in s <==> x in s[..|s| - 1] || x == s[|s| - 1];
      if p(s[|s| - 1]) then r' + [s[|s| - 1]] else r'
  }

  /** `s.flat()`: the rows of `s` one after the other. */
  function Flatten<T(!new)>(s: seq<seq<T>>): (r: seq<T>)
    ensures forall x :: x in r <==> exists i :: 0 <= i < |s| && x in s[i]
  {
    if s == [] then []
    else
      var r' := Flatten(s[..|s| - 1]);
      assert forall i :: 0 <= i < |s| - 1 ==> s[..|s| - 1][i] == s[i];
      r' + s[|s| - 1]
  }

  lemma FlattenAppend<T(!new)>(rows: seq<seq<T>>, row: seq<T>)
    ensures Flatten(rows + [row]) == Flatten(rows) + row
  {
    assert (rows + [row])[..|rows|] == rows;
  }

  lemma DistinctAppend<T>(u: seq<T>, v: seq<T>)
    requires NoDup(u) && NoDup(v)
    requires forall i, j :: 0 <= i < |u| && 0 <= j < |v| ==> u[i] != v[j]
    ensures NoDup(u + v)
  {
    forall i, j | 0 <= i < j < |u + v| ensures (u + v)[i] != (u + v)[j] {
      if j >= |u| && i < |u| {
        assert (u + v)[j] == v[j - |u|];
      }
    }
  }

  /** `Array.from(new Set(s))`: the first occurrence of every element, in order. */
  function RemoveDup<T(==,!new)>(s: seq<T>): (r: seq<T>)
    ensures NoDup(r)
    ensures forall x :: x in r <==> x in s
  {
    if s == [] then []
    else
      var r' := RemoveDup(s[..|s| - 1]);
      assert forall x :: x in s <==> x in s[..|s| - 1] || x == s[|s| - 1];
      if s[|s| - 1] in r' then r' else r' + [s[|s| - 1]]
  }

  /** The indices `0 <= id < n` that satisfy `p`, in increasing order. */
  function Where(n: nat, p: int -> bool): (r: seq<int>)
    ensures forall id :: id in r <==> 0 <= id < n && p(id)
    ensures forall i, j :: 0 <= i < j < |r| ==> r[i] < r[j]
  {
    if n == 0 then []
    else
      var r' := Where(n - 1, p);
      assert forall i :: 0 <= i < |r'| ==> r'[i] < n - 1 by {
        forall i | 0 <= i < |r'| ensures r'[i] < n - 1 {
          assert r'[i] in r';
        }
      }
      if p(n - 1) then r' + [n - 1] else r'
  }

  /** `filterCId(a, f)`: the indices of the non-null entries of `a` that satisfy `f`. */
  function FilterCId<T>(a: seq<Option<T>>, f: T -> bool): (r: seq<int>)
    ensures forall id :: id in r <==> 0 <= id < |a| && a[id].Some? && f(a[id].value)
    ensures NoDup(r)
  {
    Where(|a|, id => 0 <= id < |a| && a[id].Some? && f(a[id].value))
  }
}
