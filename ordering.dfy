/** The ordering a query applies before the application sees its rows
    (`order_by('start_time')`, the `ordering = ['position']` default of items),
    modelled as an insertion sort on an integer key. */
module Ordering {

  /** `s` is in non-decreasing order of `key`. */
  predicate SortedBy<T>(s: seq<T>, key: T -> int) {
    forall i, j :: 0 <= i < j < |s| ==> key(s[i]) <= key(s[j])
  }

  /** No element of `s` has a key below `k`. */
  ghost predicate AtLeast<T>(k: int, s: seq<T>, key: T -> int) {
    forall y :: y in s ==> k <= key(y)
  }

  lemma SortedCons<T>(a: T, u: seq<T>, key: T -> int)
    requires SortedBy(u, key) && AtLeast(key(a), u, key)
    ensures SortedBy([a] + u, key)
  {
    var s := [a] + u;
    forall i, j | 0 <= i < j < |s| ensures key(s[i]) <= key(s[j]) {
      if i == 0 {
        assert s[j] == u[j - 1];
      } else {
        assert s[i] == u[i - 1] && s[j] == u[j - 1];
      }
    }
  }

  /** Inserts `x` in front of the first element whose key is not smaller. */
  function Insert<T>(x: T, s: seq<T>, key: T -> int): (r: seq<T>)
    requires SortedBy(s, key)
    ensures multiset(r) == multiset(s) + multiset{x}
    ensures SortedBy(r, key)
  {
    if s == [] || key(x) <= key(s[0]) then
      SortedCons(x, s, key);
      [x] + s
    else
      var rest := Insert(x, s[1..], key);
      assert s == [s[0]] + s[1..];
      assert AtLeast(key(s[0]), rest, key) by {
        forall y | y in rest ensures key(s[0]) <= key(y) {
          assert y in multiset(rest);
        }
      }
      SortedCons(s[0], rest, key);
      [s[0]] + rest
  }

  /** The rows of `s`, ordered by `key`. */
  function SortBy<T>(s: seq<T>, key: T -> int): (r: seq<T>)
    ensures multiset(r) == multiset(s)
    ensures SortedBy(r, key)
  {
    if s == [] then []
    else
      assert s == [s[0]] + s[1..];
      Insert(s[0], SortBy(s[1..], key), key)
  }
}
