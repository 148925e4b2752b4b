/** What several of the models need. */
module Basics {

  datatype Option<T> = None | Some(value: T)

  /** The next element of an iteration over a set or a map: any. */
  method Any<K(==)>(s: set<K>) returns (k: K)
    requires s != {}
    ensures k in s
  {
    k :| k in s;
  }

  lemma Concat3<T>(a: seq<T>, b: seq<T>, c: seq<T>)
    ensures (a + b) + c == a + (b + c)
  {
  }

  lemma Concat4<T>(a: seq<T>, b: seq<T>, c: seq<T>, d: seq<T>)
    ensures a + b + c + d == a + (b + (c + d))
  {
  }

  lemma Concat6<T>(a: seq<T>, b: seq<T>, c: seq<T>, d: seq<T>, e: seq<T>, f: seq<T>)
    ensures a + b + c + d + e + f == a + (b + (c + (d + (e + f))))
  {
  }
}
