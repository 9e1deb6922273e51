/** The multi-value codec of the record layer: the `__mv_<field>` companion
    column holds a list as `$item$;$item$` with every `$` inside an item
    doubled. `DecodeList` is the character scanner `_decode_list`; the two
    encoders are `_encode_list` and `RecordWriter._encode_value` as written. */
module MultiValue {
  import opened Common

  // ------------------------------------------------------------- decoding

  /** The scanner's state after position `i`, run to the end of `mv`: this is
      the specification `DecodeList` is proved against. */
  function DecodeFrom(mv: string, i: nat, inValue: bool, value: string, acc: seq<string>): Option<seq<string>>
    requires i <= |mv|
    decreases |mv| - i
  {
    if i == |mv| then Some(acc)
    else if !inValue then
      if mv[i] == '$' then DecodeFrom(mv, i + 1, true, value, acc)
      else if mv[i] != ';' then None
      else DecodeFrom(mv, i + 1, false, value, acc)
    else if mv[i] == '$' && i + 1 < |mv| && mv[i + 1] == '$' then
      DecodeFrom(mv, i + 2, true, value + "$", acc)
    else if mv[i] == '$' then DecodeFrom(mv, i + 1, false, "", acc + [value])
    else DecodeFrom(mv, i + 1, true, value + [mv[i]], acc)
  }

  /** What `_decode_list(mv)` returns; `None` stands for Python's `None`. */
  function Decode(mv: string): Option<seq<string>> {
    if |mv| == 0 then None else DecodeFrom(mv, 0, false, "", [])
  }

  /** `SearchCommand._decode_list`. */
  method DecodeList(mv: string) returns (r: Option<seq<string>>)
    ensures r == Decode(mv)
  {
    if |mv| == 0 {
      return None;
    }
    var inValue := false;
    var value := "";
    var i := 0;
    var l := [];
    while i < |mv|
      invariant 0 <= i <= |mv|
      invariant !inValue ==> value == ""
      invariant DecodeFrom(mv, i, inValue, value, l) == Decode(mv)
    {
      if !inValue {
        if mv[i] == '$' {
          inValue := true;
        } else if mv[i] != ';' {
          return None;
        }
      } else {
        if mv[i] == '$' && i + 1 < |mv| && mv[i + 1] == '$' {
          value := value + "$";
          i := i + 1;
        } else if mv[i] == '$' {
          inValue := false;
          l := l + [value];
          value := "";
        } else {
          value := value + [mv[i]];
        }
      }
      i := i + 1;
    }
    return Some(l);
  }

  // -------------------------------------------------------- the grammar

  /** `x.replace('$', '$$')` */
  function Escape(x: string): (r: string)
    ensures |r| >= |x|
  {
    if |x| == 0 then ""
    else (if x[0] == '$' then "$$" else [x[0]]) + Escape(x[1..])
  }

  function EscapeAll(xs: seq<string>): (r: seq<string>)
    ensures |r| == |xs|
    ensures forall k :: 0 <= k < |xs| ==> r[k] == Escape(xs[k])
  {
    if |xs| == 0 then [] else [Escape(xs[0])] + EscapeAll(xs[1..])
  }

  /** The companion-column grammar `'$' + '$;$'.join(escaped) + '$'`. */
  function EncodeGrammar(xs: seq<string>): string {
    "$" + Join("$;$", EscapeAll(xs)) + "$"
  }

  lemma EncodeGrammarSingle(x: string)
    ensures EncodeGrammar([x]) == "$" + Escape(x) + "$"
  {
    assert EscapeAll([x]) == [Escape(x)];
  }

  lemma EncodeGrammarCons(xs: seq<string>)
    requires |xs| >= 2
    ensures EncodeGrammar(xs) == "$" + Escape(xs[0]) + "$;" + EncodeGrammar(xs[1..])
  {
    assert EscapeAll(xs)[1..] == EscapeAll(xs[1..]);
  }

  /** Scanning an escaped item and its closing `$` appends the item. */
  lemma {:induction false} ScanEscaped(mv: string, i: nat, v: string, acc: seq<string>, x: string)
    requires i + |Escape(x)| < |mv|
    requires mv[i..i + |Escape(x)|] == Escape(x)
    requires mv[i + |Escape(x)|] == '$'
    requires i + |Escape(x)| + 1 == |mv| || mv[i + |Escape(x)| + 1] != '$'
    ensures DecodeFrom(mv, i, true, v, acc) == DecodeFrom(mv, i + |Escape(x)| + 1, false, "", acc + [v + x])
    decreases |x|
  {
    var e := Escape(x);
    if |x| == 0 {
      assert v + x == v;
    } else {
      var rest := Escape(x[1..]);
      if x[0] == '$' {
        assert e == "$$" + rest;
        assert mv[i] == e[0] && mv[i + 1] == e[1];
        assert mv[i + 2..i + 2 + |rest|] == rest by {
          assert mv[i + 2..i + 2 + |rest|] == mv[i..i + |e|][2..];
        }
        ScanEscaped(mv, i + 2, v + "$", acc, x[1..]);
        assert v + "$" + x[1..] == v + x by { assert x == "$" + x[1..]; }
      } else {
        assert e == [x[0]] + rest;
        assert mv[i] == e[0];
        assert mv[i + 1..i + 1 + |rest|] == rest by {
          assert mv[i + 1..i + 1 + |rest|] == mv[i..i + |e|][1..];
        }
        ScanEscaped(mv, i + 1, v + [x[0]], acc, x[1..]);
        assert v + [x[0]] + x[1..] == v + x by { assert x == [x[0]] + x[1..]; }
      }
    }
  }

  /** An escaped item with no closing `$` before the end is dropped. */
  lemma {:induction false} ScanUnterminated(mv: string, i: nat, v: string, acc: seq<string>, x: string)
    requires i + |Escape(x)| == |mv|
    requires mv[i..] == Escape(x)
    ensures DecodeFrom(mv, i, true, v, acc) == Some(acc)
    decreases |x|
  {
    if |x| > 0 {
      var e := Escape(x);
      var rest := Escape(x[1..]);
      if x[0] == '$' {
        assert e == "$$" + rest;
        assert mv[i] == e[0] && mv[i + 1] == e[1];
        assert mv[i + 2..] == rest by { assert mv[i + 2..] == mv[i..][2..]; }
        ScanUnterminated(mv, i + 2, v + "$", acc, x[1..]);
      } else {
        assert e == [x[0]] + rest;
        assert mv[i] == e[0];
        assert mv[i + 1..] == rest by { assert mv[i + 1..] == mv[i..][1..]; }
        ScanUnterminated(mv, i + 1, v + [x[0]], acc, x[1..]);
      }
    }
  }

  /** A slice holding `a + b` holds `a` and then `b`. */
  lemma SliceSplit(mv: string, i: nat, a: string, b: string)
    requires i + |a| + |b| <= |mv|
    requires mv[i..i + |a| + |b|] == a + b
    ensures mv[i..i + |a|] == a
    ensures mv[i + |a|..i + |a| + |b|] == b
  {
    assert mv[i..i + |a|] == mv[i..i + |a| + |b|][..|a|];
    assert mv[i + |a|..i + |a| + |b|] == mv[i..i + |a| + |b|][|a|..];
  }

  /** One closed item `$<escaped>$`, followed by nothing or by any character
      but `$`, is appended to the result. */
  lemma ScanItem(mv: string, i: nat, acc: seq<string>, x: string)
    requires i + |Escape(x)| + 2 <= |mv|
    requires mv[i..i + |Escape(x)| + 2] == "$" + Escape(x) + "$"
    requires i + |Escape(x)| + 2 == |mv| || mv[i + |Escape(x)| + 2] != '$'
    ensures DecodeFrom(mv, i, false, "", acc) == DecodeFrom(mv, i + |Escape(x)| + 2, false, "", acc + [x])
  {
    var e := Escape(x);
    SliceSplit(mv, i, "$" + e, "$");
    SliceSplit(mv, i, "$", e);
    assert mv[i] == mv[i..i + 1][0];
    assert mv[i + 1 + |e|] == mv[i + 1 + |e|..i + 2 + |e|][0];
    ScanEscaped(mv, i + 1, "", acc, x);
    assert "" + x == x;
  }

  /** A grammar-encoded list followed by nothing or by any character but `$`
      decodes to its items, appended in order. */
  lemma {:induction false} ScanGrammar(mv: string, i: nat, acc: seq<string>, xs: seq<string>)
    requires |xs| > 0
    requires i + |EncodeGrammar(xs)| <= |mv|
    requires mv[i..i + |EncodeGrammar(xs)|] == EncodeGrammar(xs)
    requires i + |EncodeGrammar(xs)| == |mv| || mv[i + |EncodeGrammar(xs)|] != '$'
    ensures DecodeFrom(mv, i, false, "", acc) == DecodeFrom(mv, i + |EncodeGrammar(xs)|, false, "", acc + xs)
    decreases |xs|
  {
    if |xs| == 1 {
      ScanSingle(mv, i, acc, xs);
    } else {
      var j := ScanFirstOfMany(mv, i, acc, xs);
      ScanGrammar(mv, j, acc + [xs[0]], xs[1..]);
      ConsAppend(acc, xs);
    }
  }

  lemma ConsAppend(acc: seq<string>, xs: seq<string>)
    requires |xs| > 0
    ensures acc + [xs[0]] + xs[1..] == acc + xs
  {
    assert xs == [xs[0]] + xs[1..];
  }

  lemma ScanSingle(mv: string, i: nat, acc: seq<string>, xs: seq<string>)
    requires |xs| == 1
    requires i + |EncodeGrammar(xs)| <= |mv|
    requires mv[i..i + |EncodeGrammar(xs)|] == EncodeGrammar(xs)
    requires i + |EncodeGrammar(xs)| == |mv| || mv[i + |EncodeGrammar(xs)|] != '$'
    ensures DecodeFrom(mv, i, false, "", acc) == DecodeFrom(mv, i + |EncodeGrammar(xs)|, false, "", acc + xs)
  {
    assert xs == [xs[0]];
    EncodeGrammarSingle(xs[0]);
    ScanItem(mv, i, acc, xs[0]);
  }

  /** The first of several encoded items and the `;` after it are consumed,
      leaving the decoder at the encoding of the rest. */
  lemma ScanFirstOfMany(mv: string, i: nat, acc: seq<string>, xs: seq<string>) returns (j: nat)
    requires |xs| > 1
    requires i + |EncodeGrammar(xs)| <= |mv|
    requires mv[i..i + |EncodeGrammar(xs)|] == EncodeGrammar(xs)
    ensures j + |EncodeGrammar(xs[1..])| == i + |EncodeGrammar(xs)|
    ensures mv[j..j + |EncodeGrammar(xs[1..])|] == EncodeGrammar(xs[1..])
    ensures DecodeFrom(mv, i, false, "", acc) == DecodeFrom(mv, j, false, "", acc + [xs[0]])
  {
    var e := Escape(xs[0]);
    GrammarConsSlices(mv, i, xs);
    ScanItem(mv, i, acc, xs[0]);
    SkipSeparator(mv, i + |e| + 2, acc + [xs[0]]);
    j := i + |e| + 3;
  }

  /** Outside a value, `;` is skipped. */
  lemma SkipSeparator(mv: string, j: nat, acc: seq<string>)
    requires j < |mv| && mv[j] == ';'
    ensures DecodeFrom(mv, j, false, "", acc) == DecodeFrom(mv, j + 1, false, "", acc)
  {
  }

  /** Where a list of two or more items is encoded, the first item, the `;`
      after it, and the encoding of the rest lie one after another. */
  lemma GrammarConsSlices(mv: string, i: nat, xs: seq<string>)
    requires |xs| > 1
    requires i + |EncodeGrammar(xs)| <= |mv|
    requires mv[i..i + |EncodeGrammar(xs)|] == EncodeGrammar(xs)
    ensures var e := Escape(xs[0]);
      var g := EncodeGrammar(xs[1..]);
      |EncodeGrammar(xs)| == |e| + 3 + |g| &&
      mv[i..i + |e| + 2] == "$" + e + "$" &&
      mv[i + |e| + 2] == ';' &&
      mv[i + |e| + 3..i + |e| + 3 + |g|] == g
  {
    var item := "$" + Escape(xs[0]) + "$";
    var rest := ";" + EncodeGrammar(xs[1..]);
    EncodeGrammarCons(xs);
    assert EncodeGrammar(xs) == item + rest;
    SliceSplit(mv, i, item, rest);
    assert mv[i + |item|] == mv[i + |item|..i + |item| + |rest|][0] == ';';
    SliceSplit(mv, i + |item|, ";", EncodeGrammar(xs[1..]));
  }

  /** The decoder inverts the grammar: for every non-empty list of strings
      `_decode_list('$' + '$;$'.join(x.replace('$','$$') for x in xs) + '$') == xs`. */
  lemma DecodeInvertsGrammar(xs: seq<string>)
    requires |xs| > 0
    ensures Decode(EncodeGrammar(xs)) == Some(xs)
  {
    var g := EncodeGrammar(xs);
    assert g[0..|g|] == g;
    ScanGrammar(g, 0, [], xs);
    assert [] + xs == xs;
  }

  /** An unterminated last value is silently dropped: only closed values, in
      order, are returned. */
  lemma DecodeDropsUnterminatedTail(xs: seq<string>, t: string)
    requires |xs| > 0
    ensures Decode(EncodeGrammar(xs) + ";$" + Escape(t)) == Some(xs)
  {
    var g := EncodeGrammar(xs);
    var mv := g + ";$" + Escape(t);
    assert mv[0..|g|] == g;
    assert mv[|g|] == ';';
    ScanGrammar(mv, 0, [], xs);
    assert [] + xs == xs;
    assert mv[|g| + 1] == '$';
    assert mv[|g| + 2..] == Escape(t);
    ScanUnterminated(mv, |g| + 2, "", xs, t);
  }

  /** Outside a value any character other than `$` or `;` makes the whole
      decode `None`, whatever closed values came before. */
  lemma DecodeRejectsStrayCharacter(xs: seq<string>, c: char, rest: string)
    requires c != '$' && c != ';'
    ensures Decode((if |xs| == 0 then "" else EncodeGrammar(xs)) + [c] + rest) == None
  {
    var p := if |xs| == 0 then "" else EncodeGrammar(xs);
    var mv := p + [c] + rest;
    assert mv[|p|] == c;
    if |xs| > 0 {
      assert mv[0..|p|] == p;
      ScanGrammar(mv, 0, [], xs);
    }
  }

  /** A string made only of separators decodes to the empty list. */
  lemma {:induction false} DecodeSeparatorsOnly(mv: string, i: nat, acc: seq<string>)
    requires i <= |mv|
    requires forall k :: i <= k < |mv| ==> mv[k] == ';'
    ensures DecodeFrom(mv, i, false, "", acc) == Some(acc)
    decreases |mv| - i
  {
    if i < |mv| {
      DecodeSeparatorsOnly(mv, i + 1, acc);
    }
  }

  // ------------------------------------------------------------- encoding

  /** The Python values a record field can hold: a scalar, or a list/tuple. */
  datatype Scalar = Bool(b: bool) | Str(s: string) | Int(i: int) | Obj(repr: string)
  datatype FieldValue = Single(v: Scalar) | Multi(items: seq<Scalar>)

  /** `to_string` of `_encode_list`: booleans render as `t`/`f`, strings and
      numbers through `unicode`, anything else through `repr`. */
  function ListItemText(x: Scalar): string {
    match x
    case Bool(b) => if b then "t" else "f"
    case Str(s) => s
    case Int(i) => IntToString(i)
    case Obj(r) => r
  }

  /** `to_string` of `_encode_value`: a `bool` is a `Number`, so it renders
      through `unicode` as `True`/`False`. */
  function ValueText(x: Scalar): string {
    match x
    case Bool(b) => if b then "True" else "False"
    case Str(s) => s
    case Int(i) => IntToString(i)
    case Obj(r) => r
  }

  function Texts(xs: seq<Scalar>, render: Scalar -> string): (r: seq<string>)
    ensures |r| == |xs|
    ensures forall k :: 0 <= k < |xs| ==> r[k] == render(xs[k])
  {
    if |xs| == 0 then [] else [render(xs[0])] + Texts(xs[1..], render)
  }

  /** The pair of cells a list produces, built as the source builds it: the
      escaped items come from an `imap` iterator that the first `join`
      has already used up, so the second `join` sees no items. */
  function ListCells(texts: seq<string>): (Option<string>, Option<string>) {
    if |texts| == 0 then (None, None)
    else if |texts| == 1 then (Some(texts[0]), None)
    else (Some(Join("\n", texts)), Some("$" + Join("$;$", []) + "$"))
  }

  /** What the two encoders evidently intend: the base column joins the items
      with newlines, the companion column holds the grammar. */
  function ListCellsIntended(texts: seq<string>): (Option<string>, Option<string>) {
    if |texts| == 0 then (None, None)
    else if |texts| == 1 then (Some(texts[0]), None)
    else (Some(Join("\n", texts)), Some(EncodeGrammar(texts)))
  }

  /** `_encode_list(value)`. */
  function EncodeList(xs: seq<Scalar>): (Option<string>, Option<string>) {
    ListCells(Texts(xs, ListItemText))
  }

  /** `RecordWriter._encode_value(value)`. */
  function EncodeValue(v: FieldValue): (Option<string>, Option<string>) {
    match v
    case Single(x) => (Some(ValueText(x)), None)
    case Multi(xs) => ListCells(Texts(xs, ValueText))
  }

  /** The cells as written agree with the intended ones up to one item; from
      two items on, the base column still agrees but the companion column is
      `$$`, from which the decoder recovers a single empty item. */
  lemma ListCellsAsWritten(texts: seq<string>)
    ensures |texts| < 2 ==> ListCells(texts) == ListCellsIntended(texts)
    ensures |texts| >= 2 ==>
      ListCells(texts).0 == ListCellsIntended(texts).0 &&
      ListCells(texts).1 == Some("$$") &&
      Decode(ListCells(texts).1.value) == Some([""])
  {
    if |texts| >= 2 {
      assert "$" + Join("$;$", []) + "$" == "$$" == EncodeGrammar([""]);
      DecodeInvertsGrammar([""]);
    }
  }

  /** A concrete case: the list `['a', 'b']` gets the companion column `$$`
      as written, `$a$;$b$` as intended. */
  lemma ListCellsExample()
    ensures ListCells(["a", "b"]).1 == Some("$$")
    ensures ListCellsIntended(["a", "b"]).1 == Some("$a$;$b$")
    ensures Decode("$$") == Some([""]) && Decode("$a$;$b$") == Some(["a", "b"])
  {
    ListCellsAsWritten(["a", "b"]);
    assert "a"[1..] == "" && "b"[1..] == "";
    assert Escape("a") == "a" && Escape("b") == "b";
    assert EscapeAll(["a", "b"]) == ["a", "b"];
    assert ["a", "b"][1..] == ["b"];
    assert Join("$;$", ["a", "b"]) == "a$;$b";
    assert EncodeGrammar(["a", "b"]) == "$" + "a$;$b" + "$" == "$a$;$b$";
    IntendedCellsRoundTrip(["a", "b"]);
    assert Decode("$a$;$b$") == Some(["a", "b"]);
    DecodeInvertsGrammar([""]);
    assert EncodeGrammar([""]) == "$$";
  }

  /** `_encode_list`: no cells for an empty list, the item alone for one;
      for more, the newline-joined items, which split back into the items
      when none holds a newline, and the companion column `$$`, which
      decodes to a single empty item whatever the list held. */
  lemma EncodeListRoundTrip(xs: seq<Scalar>)
    ensures |xs| == 0 ==> EncodeList(xs) == (None, None)
    ensures |xs| == 1 ==> EncodeList(xs) == (Some(ListItemText(xs[0])), None)
    ensures |xs| >= 2 ==>
      EncodeList(xs).0 == Some(Join("\n", Texts(xs, ListItemText))) &&
      EncodeList(xs).1 == Some("$$") && Decode(EncodeList(xs).1.value) == Some([""])
    ensures |xs| >= 2 && (forall k :: 0 <= k < |xs| ==> !Contains(ListItemText(xs[k]), '\n')) ==>
      Split(EncodeList(xs).0.value, '\n') == Texts(xs, ListItemText)
  {
    var texts := Texts(xs, ListItemText);
    ListCellsAsWritten(texts);
    if |xs| >= 2 {
      IntendedCellsRoundTrip(texts);
    }
  }

  /** `_encode_value`: a non-list renders alone; a list as in `_encode_list`,
      with booleans as `True`/`False`. */
  lemma EncodeValueRoundTrip(v: FieldValue)
    ensures v.Single? ==> EncodeValue(v) == (Some(ValueText(v.v)), None)
    ensures v.Multi? && |v.items| == 0 ==> EncodeValue(v) == (None, None)
    ensures v.Multi? && |v.items| == 1 ==> EncodeValue(v) == (Some(ValueText(v.items[0])), None)
    ensures v.Multi? && |v.items| >= 2 ==>
      EncodeValue(v).0 == Some(Join("\n", Texts(v.items, ValueText))) &&
      EncodeValue(v).1 == Some("$$") && Decode(EncodeValue(v).1.value) == Some([""])
    ensures v.Multi? && |v.items| >= 2 && (forall k :: 0 <= k < |v.items| ==> !Contains(ValueText(v.items[k]), '\n')) ==>
      Split(EncodeValue(v).0.value, '\n') == Texts(v.items, ValueText)
  {
    if v.Multi? {
      var texts := Texts(v.items, ValueText);
      ListCellsAsWritten(texts);
      if |v.items| >= 2 {
        IntendedCellsRoundTrip(texts);
      }
    }
  }

  /** The intended encoding round-trips: decoding the companion column gives
      back the rendered items, and splitting the base column at newlines does
      too when no item holds a newline. */
  lemma IntendedCellsRoundTrip(texts: seq<string>)
    requires |texts| >= 2
    ensures Decode(ListCellsIntended(texts).1.value) == Some(texts)
    ensures (forall k :: 0 <= k < |texts| ==> !Contains(texts[k], '\n')) ==>
              Split(ListCellsIntended(texts).0.value, '\n') == texts
  {
    DecodeInvertsGrammar(texts);
    if forall k :: 0 <= k < |texts| ==> !Contains(texts[k], '\n') {
      SplitJoin(texts, '\n');
    }
  }
}
