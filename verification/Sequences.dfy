/** A fact about sequences that several components need. */
module Sequences {
  lemma SameRest<T>(front: seq<T>, s: seq<T>, t: seq<T>)
    ensures front + s == front + t <==> s == t
  {
    assert (front + s)[|front|..] == s && (front + t)[|front|..] == t;
  }
}
