/** The in-memory form of a chunk's metadata segment: the value tree that the
    JSON library produces and consumes. Text conversion is not modelled; every
    operation that needs it takes the serialiser or the parser as a parameter. */
module Metadata {
  import opened Common

  datatype Json =
    | JNull
    | JBool(b: bool)
    | JInt(i: int)
    | JStr(s: string)
    | JList(items: seq<Json>)
    | JObject(fields: Pairs<Json>)

  /** Python truthiness of the value a tree stands for. */
  predicate Truthy(j: Json) {
    match j
    case JNull => false
    case JBool(b) => b
    case JInt(i) => i != 0
    case JStr(s) => |s| > 0
    case JList(items) => |items| > 0
    case JObject(fields) => |fields| > 0
  }

  /** `None` for an absent optional boolean, the boolean otherwise. */
  function OptBool(b: Option<bool>): Json {
    match b
    case None => JNull
    case Some(v) => JBool(v)
  }

  /** The entries of a dictionary whose value is not `None`
      (`ifilter(lambda x: x[1] is not None, d.iteritems())`). */
  function DropNone(ps: Pairs<Json>): (r: Pairs<Json>)
    ensures forall k :: 0 <= k < |r| ==> r[k].1 != JNull
    ensures forall key :: key in Keys(r) ==> key in Keys(ps)
    ensures forall key :: Lookup(ps, key).Some? && Lookup(ps, key).value != JNull ==> Lookup(r, key) == Lookup(ps, key)
    ensures |r| <= |ps|
  {
    if |ps| == 0 then []
    else if ps[0].1 == JNull then DropNone(ps[1..])
    else [ps[0]] + DropNone(ps[1..])
  }

  /** The positions of the entries whose value is not `None`. */
  function KeptIndices(ps: Pairs<Json>): (idx: seq<nat>)
    ensures forall k :: 0 <= k < |idx| ==> idx[k] < |ps| && ps[idx[k]].1 != JNull
  {
    if |ps| == 0 then []
    else if ps[0].1 == JNull then Shift(KeptIndices(ps[1..]))
    else [0] + Shift(KeptIndices(ps[1..]))
  }

  /** Every position one further on. */
  function Shift(idx: seq<nat>): (r: seq<nat>)
    ensures |r| == |idx| && forall k :: 0 <= k < |idx| ==> r[k] == idx[k] + 1
  {
    seq(|idx|, k requires 0 <= k < |idx| => idx[k] + 1)
  }

  /** The kept positions increase. */
  lemma {:induction false} KeptIndicesOrdered(ps: Pairs<Json>)
    ensures forall k, l :: 0 <= k < l < |KeptIndices(ps)| ==> KeptIndices(ps)[k] < KeptIndices(ps)[l]
  {
    if |ps| > 0 {
      var tail := ps[1..];
      var rest := KeptIndices(tail);
      KeptIndicesOrdered(tail);
      var shifted := Shift(rest);
      assert forall k, l :: 0 <= k < l < |shifted| ==> shifted[k] < shifted[l];
      if ps[0].1 != JNull {
        var idx := [0] + shifted;
        assert KeptIndices(ps) == idx;
        forall k, l | 0 <= k < l < |idx|
          ensures idx[k] < idx[l]
        {
          assert idx[l] == shifted[l - 1];
          if k > 0 { assert idx[k] == shifted[k - 1]; }
        }
      } else {
        assert KeptIndices(ps) == shifted;
      }
    }
  }

  /** Every entry that is not `None` is at a kept position. */
  lemma {:induction false} KeptIndicesComplete(ps: Pairs<Json>, j: nat)
    requires j < |ps| && ps[j].1 != JNull
    ensures j in KeptIndices(ps)
  {
    var shifted := Shift(KeptIndices(ps[1..]));
    if j > 0 {
      assert ps[1..][j - 1] == ps[j];
      KeptIndicesComplete(ps[1..], j - 1);
      var k :| 0 <= k < |KeptIndices(ps[1..])| && KeptIndices(ps[1..])[k] == j - 1;
      assert shifted[k] == j;
      if ps[0].1 != JNull {
        assert ([0] + shifted)[k + 1] == j;
      }
    } else {
      assert KeptIndices(ps)[0] == 0;
    }
  }

  /** The filter's result is `ps` read at the kept positions. */
  lemma {:induction false} DropNoneAt(ps: Pairs<Json>)
    ensures |DropNone(ps)| == |KeptIndices(ps)|
    ensures forall k :: 0 <= k < |DropNone(ps)| ==> DropNone(ps)[k] == ps[KeptIndices(ps)[k]]
  {
    if |ps| > 0 {
      var tail := ps[1..];
      DropNoneAt(tail);
      KeptIndicesOrdered(tail);
      var rt := DropNone(tail);
      var shifted := Shift(KeptIndices(tail));
      if ps[0].1 != JNull {
        var r := [ps[0]] + rt;
        forall k | 0 <= k < |r|
          ensures r[k] == ps[([0] + shifted)[k]]
        {
          if k > 0 {
            assert r[k] == rt[k - 1] && ([0] + shifted)[k] == shifted[k - 1];
            assert tail[KeptIndices(tail)[k - 1]] == ps[shifted[k - 1]];
          }
        }
      } else {
        forall k | 0 <= k < |rt|
          ensures rt[k] == ps[shifted[k]]
        {
          assert tail[KeptIndices(tail)[k]] == ps[shifted[k]];
        }
      }
    }
  }

  /** The filter keeps the order of the entries and drops only the `None`
      ones: its result is `ps` read at increasing positions, which are
      exactly the positions of the entries that are not `None`. */
  lemma DropNoneSubsequence(ps: Pairs<Json>)
    ensures var idx := KeptIndices(ps);
      (forall k, l :: 0 <= k < l < |idx| ==> idx[k] < idx[l]) &&
      (forall j :: 0 <= j < |ps| && ps[j].1 != JNull ==> j in idx)
    ensures |DropNone(ps)| == |KeptIndices(ps)|
    ensures forall k :: 0 <= k < |DropNone(ps)| ==> DropNone(ps)[k] == ps[KeptIndices(ps)[k]]
  {
    KeptIndicesOrdered(ps);
    DropNoneAt(ps);
    forall j | 0 <= j < |ps| && ps[j].1 != JNull
      ensures j in KeptIndices(ps)
    {
      KeptIndicesComplete(ps, j);
    }
  }
}
