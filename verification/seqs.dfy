/**
  Regrouping of sequence concatenations, stated once for every module
  that rearranges emitted code, traces or register lists.
 */
module Seqs {

  lemma AppendAssoc<T>(a: seq<T>, b: seq<T>, c: seq<T>)
    ensures a + b + c == a + (b + c)
  {
  }

  /** The pieces of `ss`, one after the other. */
  function Flatten<T>(ss: seq<seq<T>>): seq<T> {
    if |ss| == 0 then [] else ss[0] + Flatten(ss[1..])
  }

  lemma Assoc3<T>(c: seq<T>, x: seq<T>, y: seq<T>, z: seq<T>)
    ensures c + x + y + z == c + (x + y + z)
  {
  }
}
