/**
 * Grouping a sequence by a key, as a dictionary of lists filled by appending
 * each element, in order, to the list of its key.
 */
module Grouping {
  /** The elements of `s` whose key is `u`, in their order in `s`. */
  function Where<T, K(==)>(s: seq<T>, key: T -> K, u: K): seq<T> {
    if s == [] then []
    else
      var last := s[|s| - 1];
      Where(s[..|s| - 1], key, u) + (if key(last) == u then [last] else [])
  }

  /** An element is in the group of `u` exactly when it is an element of `s` whose key is `u`. */
  lemma {:induction false} WhereMembers<T, K>(s: seq<T>, key: T -> K, u: K, x: T)
    ensures x in Where(s, key, u) <==> x in s && key(x) == u
    decreases |s|
  {
    if s != [] {
      var init := s[..|s| - 1];
      WhereMembers(init, key, u, x);
      assert s == init + [s[|s| - 1]];
    }
  }

  /** The dictionary after appending each element of `s`, in order, to the list of its key. */
  function GroupBy<T, K(==)>(s: seq<T>, key: T -> K): map<K, seq<T>> {
    if s == [] then map[]
    else
      var g := GroupBy(s[..|s| - 1], key);
      var last := s[|s| - 1];
      var u := key(last);
      g[u := (if u in g then g[u] else []) + [last]]
  }

  /** The dictionary has a key exactly for each key some element carries. */
  lemma {:induction false} GroupByKeys<T, K>(s: seq<T>, key: T -> K)
    ensures forall u :: u in GroupBy(s, key) <==> exists a :: 0 <= a < |s| && key(s[a]) == u
    decreases |s|
  {
    if s != [] {
      var init, last := s[..|s| - 1], s[|s| - 1];
      GroupByKeys(init, key);
      forall u ensures u in GroupBy(s, key) <==> exists a :: 0 <= a < |s| && key(s[a]) == u {
        if u in GroupBy(init, key) {
          var a :| 0 <= a < |init| && key(init[a]) == u;
          assert s[a] == init[a];
        }
        if u != key(last) && exists a :: 0 <= a < |s| && key(s[a]) == u {
          var a :| 0 <= a < |s| && key(s[a]) == u;
          assert s[a] == init[a];
        }
      }
    }
  }

  /** The list under each key holds the elements with that key, in their order in `s`. */
  lemma {:induction false} GroupByWhere<T, K>(s: seq<T>, key: T -> K)
    ensures forall u :: u in GroupBy(s, key) ==> GroupBy(s, key)[u] == Where(s, key, u)
    decreases |s|
  {
    if s != [] {
      var init := s[..|s| - 1];
      GroupByWhere(init, key);
      GroupByKeys(init, key);
      var u := key(s[|s| - 1]);
      if u !in GroupBy(init, key) {
        assert Where(init, key, u) == [] by {
          if Where(init, key, u) != [] {
            var x := Where(init, key, u)[0];
            WhereMembers(init, key, u, x);
          }
        }
      }
    }
  }
}
