/** Lists of pairs, the shape in which the model keeps Python's ordered
    dictionaries. */
module Pairs {

  /** The first components in order: the keys of a dictionary as list(d). */
  function Firsts<K, V>(s: seq<(K, V)>): (ks: seq<K>)
    ensures |ks| == |s| && forall i :: 0 <= i < |s| ==> ks[i] == s[i].0
  {
    if s == [] then [] else [s[0].0] + Firsts(s[1..])
  }

  /** The keys of a pair put in front: its key, then the others. */
  lemma FirstsPrepend<K, V>(x: (K, V), s: seq<(K, V)>)
    ensures Firsts([x] + s) == [x.0] + Firsts(s)
  {
    assert ([x] + s)[1..] == s;
  }
}
