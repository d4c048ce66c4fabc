/** First match by key, as JavaScript's `find` and `findIndex` look a record up by one field. */
module Search {
  /** The position of the first element with the given key, or the length. */
  function IndexOfKey<T, K(==)>(s: seq<T>, keyOf: T -> K, key: K): (i: nat)
    ensures i <= |s|
    ensures i < |s| ==> keyOf(s[i]) == key
    ensures forall j :: 0 <= j < i ==> keyOf(s[j]) != key
  {
    if s == [] || keyOf(s[0]) == key then 0 else 1 + IndexOfKey(s[1..], keyOf, key)
  }
}
