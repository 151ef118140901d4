/** Bytes, optional values and results with an error, standing for nil-able pointers and error returns, map lookup, and
    insertion into a sequence. */
module Wrappers {
  newtype byte = x: int | 0 <= x < 256

  datatype Option<+T> = None | Some(value: T)

  datatype Result<+T, +E> = Ok(value: T) | Err(error: E)

  function Lookup<K, V>(m: map<K, V>, k: K): Option<V> { if k in m then Some(m[k]) else None }

  /** An arbitrary element: the next one of an unordered iteration. */
  method Pick<T>(s: set<T>) returns (x: T)
    requires s != {}
    ensures x in s
  {
    x :| x in s;
  }

  function Insert<T>(s: seq<T>, at: nat, x: T): (r: seq<T>)
    requires at <= |s|
    ensures |r| == |s| + 1 && r[at] == x
    ensures forall k :: 0 <= k < at ==> r[k] == s[k]
    ensures forall k :: at < k < |r| ==> r[k] == s[k - 1]
  {
    s[..at] + [x] + s[at..]
  }

  lemma InsertMembers<T>(s: seq<T>, at: nat, x: T)
    requires at <= |s|
    ensures forall y :: y in Insert(s, at, x) <==> y == x || y in s
  {
    var r := Insert(s, at, x);
    forall y | y in s ensures y in r {
      var k :| 0 <= k < |s| && s[k] == y;
      assert r[if k < at then k else k + 1] == y;
    }
    hide Insert;
  }

  lemma InsertCounts<T>(s: seq<T>, at: nat, x: T)
    requires at <= |s|
    ensures multiset(Insert(s, at, x)) == multiset(s) + multiset{x}
  {
    assert s == s[..at] + s[at..];
  }
}
