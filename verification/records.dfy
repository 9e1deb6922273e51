/** `SearchCommand._records`: the records of an input body, given the rows the
    CSV reader produced from it (the first row names the fields). */
module Records {
  import opened Common

  /** A record: field name to value, in field order. */
  type Record = Pairs<string>

  /** `OrderedDict(izip(names, values))` added to `acc`: pairs are taken in
      order until either side runs out, and a repeated name keeps its first
      place and takes its last value. */
  function ZipInto(acc: Record, names: seq<string>, values: seq<string>): Record
    decreases |names|
  {
    if |names| == 0 || |values| == 0 then acc
    else ZipInto(Put(acc, names[0], values[0]), names[1..], values[1..])
  }

  function Zip(names: seq<string>, values: seq<string>): Record {
    ZipInto([], names, values)
  }

  predicate Distinct(names: seq<string>) {
    forall j, k :: 0 <= j < k < |names| ==> names[j] != names[k]
  }

  /** The pairs of `izip(names, values)`. */
  function ZipPairs(names: seq<string>, values: seq<string>): (r: Record)
    ensures |r| == Min(|names|, |values|)
    ensures forall k :: 0 <= k < |r| ==> r[k] == (names[k], values[k])
    decreases |names|
  {
    if |names| == 0 || |values| == 0 then []
    else [(names[0], values[0])] + ZipPairs(names[1..], values[1..])
  }

  lemma {:induction false} PutNewKeyAppends(acc: Record, key: string, value: string)
    requires key !in Keys(acc)
    ensures Put(acc, key, value) == acc + [(key, value)]
  {
    if |acc| > 0 {
      assert acc[0].0 == Keys(acc)[0] != key;
      KeysTail(acc);
      PutNewKeyAppends(acc[1..], key, value);
      assert Put(acc, key, value) == [acc[0]] + Put(acc[1..], key, value);
      assert [acc[0]] + (acc[1..] + [(key, value)]) == acc + [(key, value)];
    }
  }

  lemma KeysTail(acc: Record)
    requires |acc| > 0
    ensures Keys(acc) == [acc[0].0] + Keys(acc[1..])
  {
  }

  lemma {:induction false} ZipIntoAppends(acc: Record, names: seq<string>, values: seq<string>)
    requires Distinct(names)
    requires forall k :: 0 <= k < |names| ==> names[k] !in Keys(acc)
    ensures ZipInto(acc, names, values) == acc + ZipPairs(names, values)
    decreases |names|
  {
    if |names| == 0 || |values| == 0 {
      assert acc + [] == acc;
    } else {
      var pair := (names[0], values[0]);
      ZipIntoStep(acc, names, values);
      ZipIntoAppends(acc + [pair], names[1..], values[1..]);
      ZipPairsCons(names, values);
      ConcatAssoc(acc, [pair], ZipPairs(names[1..], values[1..]));
    }
  }

  /** One step of `ZipInto` appends the first pair and leaves the remaining
      names new to the record. */
  lemma ZipIntoStep(acc: Record, names: seq<string>, values: seq<string>)
    requires |names| > 0 && |values| > 0
    requires Distinct(names)
    requires forall k :: 0 <= k < |names| ==> names[k] !in Keys(acc)
    ensures ZipInto(acc, names, values) == ZipInto(acc + [(names[0], values[0])], names[1..], values[1..])
    ensures Distinct(names[1..])
    ensures forall k :: 0 <= k < |names[1..]| ==> names[1..][k] !in Keys(acc + [(names[0], values[0])])
  {
    PutNewKeyAppends(acc, names[0], values[0]);
    var acc' := acc + [(names[0], values[0])];
    assert Keys(acc') == Keys(acc) + [names[0]];
    var tail := names[1..];
    forall k | 0 <= k < |tail| ensures tail[k] !in Keys(acc') {
      assert tail[k] == names[k + 1];
      assert tail[k] != names[0];
    }
  }

  lemma ZipPairsCons(names: seq<string>, values: seq<string>)
    requires |names| > 0 && |values| > 0
    ensures ZipPairs(names, values) == [(names[0], values[0])] + ZipPairs(names[1..], values[1..])
  {
  }

  /** In a record whose names are distinct, each name finds its own value. */
  lemma {:induction false} LookupAt(ps: Record, k: nat)
    requires k < |ps|
    requires Distinct(Keys(ps))
    ensures Lookup(ps, ps[k].0) == Some(ps[k].1)
  {
    if k > 0 {
      assert Keys(ps)[0] != Keys(ps)[k];
      var tail := ps[1..];
      assert Keys(tail) == Keys(ps)[1..];
      LookupAt(tail, k - 1);
    }
  }

  /** With distinct field names, a record holds the names of the header row in
      order, each with the value in the same column, up to the shorter of the
      two rows. */
  lemma ZipFields(names: seq<string>, values: seq<string>)
    requires Distinct(names)
    ensures Keys(Zip(names, values)) == names[..Min(|names|, |values|)]
    ensures forall k :: 0 <= k < Min(|names|, |values|) ==> Lookup(Zip(names, values), names[k]) == Some(values[k])
  {
    ZipIntoAppends([], names, values);
    var r := Zip(names, values);
    assert r == ZipPairs(names, values) by { assert [] + ZipPairs(names, values) == ZipPairs(names, values); }
    ZipPairsKeys(names, values);
    forall k | 0 <= k < Min(|names|, |values|) ensures Lookup(r, names[k]) == Some(values[k]) {
      LookupAt(r, k);
    }
  }

  lemma ZipPairsKeys(names: seq<string>, values: seq<string>)
    requires Distinct(names)
    ensures Keys(ZipPairs(names, values)) == names[..Min(|names|, |values|)]
    ensures Distinct(Keys(ZipPairs(names, values)))
  {
    var keys := Keys(ZipPairs(names, values));
    assert keys == names[..Min(|names|, |values|)];
  }

  const MvPrefix := "__mv_"

  /** The header holds a field named exactly `__mv_`, for which the one
      character after the prefix does not exist. */
  predicate HasBareMvField(header: seq<string>) {
    exists k :: 0 <= k < |header| && header[k] == MvPrefix
  }

  /** The header holds a multi-value companion field. */
  predicate HasMvField(header: seq<string>) {
    exists k :: 0 <= k < |header| && StartsWith(header[k], MvPrefix)
  }

  function ZipRows(header: seq<string>, rows: seq<seq<string>>): (r: seq<Record>)
    ensures |r| == |rows|
    ensures forall k :: 0 <= k < |rows| ==> r[k] == Zip(header, rows[k])
  {
    if |rows| == 0 then [] else [Zip(header, rows[0])] + ZipRows(header, rows[1..])
  }

  /** `list(self._records(reader))` where `reader` yields `rows`. No rows give
      no records. A header field named exactly `__mv_` raises `IndexError`.
      Otherwise any `__mv_` field sends every row down the multi-value branch,
      which iterates over a fresh empty record and so yields one empty
      record per row; without one each row is zipped with the header. */
  function Records(rows: seq<seq<string>>): (r: Result<seq<Record>>)
    ensures |rows| == 0 ==> r == Ok([])
    ensures r.Err? <==> |rows| > 0 && HasBareMvField(rows[0])
    ensures r.Err? ==> r.fault.IndexError?
    ensures r.Ok? && |rows| > 0 ==> |r.value| == |rows| - 1
    ensures r.Ok? && |rows| > 0 && HasMvField(rows[0]) ==> forall k :: 0 <= k < |r.value| ==> r.value[k] == []
    ensures r.Ok? && |rows| > 0 && !HasMvField(rows[0]) ==>
              forall k :: 0 <= k < |r.value| ==> r.value[k] == Zip(rows[0], rows[k + 1])
  {
    if |rows| == 0 then Ok([])
    else if HasBareMvField(rows[0]) then Err(IndexError("string index out of range"))
    else if HasMvField(rows[0]) then Ok(seq(|rows| - 1, _ => []))
    else Ok(ZipRows(rows[0], rows[1..]))
  }
}
