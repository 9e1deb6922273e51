/** Helpers shared by every part of the model: optional values, Python
    exceptions as values, strings and insertion-ordered dictionaries. */
module Common {

  datatype Option<+T> = None | Some(value: T) {
    function GetOr(default: T): T {
      match this
      case Some(v) => v
      case None => default
    }
  }

  /** The Python exceptions the core raises; each carries its message text. */
  datatype Fault =
    | TypeError(detail: string)
    | ValueError(detail: string)
    | AttributeError(detail: string)
    | IndexError(detail: string)

  datatype Result<+T> = Ok(value: T) | Err(fault: Fault)

  /** The outcome of a statement that returns nothing or raises. */
  datatype Outcome = Pass | Fail(fault: Fault)

  function Min(a: int, b: int): int { if a <= b then a else b }

  // ---------------------------------------------------------------- strings

  predicate StartsWith(s: string, prefix: string) {
    |prefix| <= |s| && s[..|prefix|] == prefix
  }

  predicate EndsWith(s: string, suffix: string) {
    |suffix| <= |s| && s[|s| - |suffix|..] == suffix
  }

  /** `sep.join(xs)` */
  function Join(sep: string, xs: seq<string>): string {
    if |xs| == 0 then ""
    else if |xs| == 1 then xs[0]
    else xs[0] + sep + Join(sep, xs[1..])
  }

  /** Python's `c in s` for a single character. */
  predicate Contains(s: string, c: char) {
    exists k :: 0 <= k < |s| && s[k] == c
  }

  /** Python's substring test `needle in s`. */
  predicate HasSubstring(s: string, needle: string)
    decreases |s|
  {
    StartsWith(s, needle) || (|s| > 0 && HasSubstring(s[1..], needle))
  }

  /** Python's `s.split(sep)` on a one-character separator. */
  function Split(s: string, sep: char): (r: seq<string>)
    ensures |r| > 0
    decreases |s|
  {
    if |s| == 0 then [""]
    else
      var rest := Split(s[1..], sep);
      if s[0] == sep then [""] + rest
      else [[s[0]] + rest[0]] + rest[1..]
  }

  /** Splitting a join gives back the parts when no part holds the separator,
      the property `'\n'.join` of a multi-value relies on. */
  lemma {:induction false} SplitJoin(xs: seq<string>, sep: char)
    requires |xs| > 0
    requires forall k :: 0 <= k < |xs| ==> !Contains(xs[k], sep)
    ensures Split(Join([sep], xs), sep) == xs
  {
    SplitConcat(xs[0], sep);
    if |xs| > 1 {
      var tail := Join([sep], xs[1..]);
      var rest := [sep] + tail;
      SplitJoin(xs[1..], sep);
      assert rest[1..] == tail;
      assert Split(rest, sep) == [""] + xs[1..];
      SplitPrefix(xs[0], rest, sep);
      assert Join([sep], xs) == xs[0] + rest;
      assert xs[0] + "" == xs[0];
      assert [xs[0]] + xs[1..] == xs;
    }
  }

  lemma {:induction false} SplitConcat(a: string, sep: char)
    requires !Contains(a, sep)
    ensures Split(a, sep) == [a]
    decreases |a|
  {
    if |a| > 0 {
      assert !Contains(a[1..], sep) by {
        forall k | 0 <= k < |a[1..]| ensures a[1..][k] != sep { assert a[1..][k] == a[k + 1]; }
      }
      SplitConcat(a[1..], sep);
      assert [a[0]] + a[1..] == a;
    }
  }

  /** A separator-free prefix `a` glues onto the first part of what follows. */
  lemma {:induction false} SplitPrefix(a: string, b: string, sep: char)
    requires !Contains(a, sep)
    ensures Split(a + b, sep) == [a + Split(b, sep)[0]] + Split(b, sep)[1..]
    decreases |a|
  {
    if |a| > 0 {
      assert (a + b)[0] == a[0];
      assert (a + b)[1..] == a[1..] + b;
      assert !Contains(a[1..], sep) by {
        forall k | 0 <= k < |a[1..]| ensures a[1..][k] != sep { assert a[1..][k] == a[k + 1]; }
      }
      SplitPrefix(a[1..], b, sep);
      assert [a[0]] + (a[1..] + Split(b, sep)[0]) == a + Split(b, sep)[0];
    } else {
      var r := Split(b, sep);
      assert a + b == b;
      assert a + r[0] == r[0];
      assert [r[0]] + r[1..] == r;
    }
  }

  predicate IsAsciiUpper(c: char) { 'A' <= c <= 'Z' }
  predicate IsAsciiLower(c: char) { 'a' <= c <= 'z' }

  /** `s.lower()` restricted to the ASCII letters. */
  function Lower(s: string): (r: string)
    ensures |r| == |s|
    ensures forall k :: 0 <= k < |r| ==> !IsAsciiUpper(r[k])
    ensures forall k :: 0 <= k < |r| ==> (r[k] == s[k] <==> !IsAsciiUpper(s[k]))
  {
    seq(|s|, k requires 0 <= k < |s| =>
      if IsAsciiUpper(s[k]) then (s[k] as int + 32) as char else s[k])
  }

  /** `s.upper()` restricted to the ASCII letters. */
  function Upper(s: string): (r: string)
    ensures |r| == |s|
    ensures forall k :: 0 <= k < |r| ==> !IsAsciiLower(r[k])
  {
    seq(|s|, k requires 0 <= k < |s| =>
      if IsAsciiLower(s[k]) then (s[k] as int - 32) as char else s[k])
  }

  // --------------------------------------------------------- decimal numbers

  predicate IsDigit(c: char) { '0' <= c <= '9' }

  function DigitChar(d: nat): char
    requires d < 10
  {
    ('0' as int + d) as char
  }

  function DigitValue(c: char): nat
    requires IsDigit(c)
  {
    c as int - '0' as int
  }

  /** `'%d' % n` for a non-negative integer. */
  function NatToString(n: nat): (r: string)
    ensures |r| > 0
    ensures forall k :: 0 <= k < |r| ==> IsDigit(r[k])
  {
    if n < 10 then [DigitChar(n)] else NatToString(n / 10) + [DigitChar(n % 10)]
  }

  /** `unicode(i)` for an integer. */
  function IntToString(i: int): string {
    if i < 0 then "-" + NatToString(-i) else NatToString(i)
  }

  /** `int(d)` for a string of decimal digits. */
  function DigitsValue(d: string): nat
    requires forall k :: 0 <= k < |d| ==> IsDigit(d[k])
  {
    if |d| == 0 then 0 else DigitsValue(d[..|d| - 1]) * 10 + DigitValue(d[|d| - 1])
  }

  lemma {:induction false} DigitsValueOfNatToString(n: nat)
    ensures DigitsValue(NatToString(n)) == n
  {
    if n >= 10 {
      var s := NatToString(n);
      assert s[..|s| - 1] == NatToString(n / 10);
      DigitsValueOfNatToString(n / 10);
    }
  }

  // ------------------------------------------------ insertion-ordered dicts

  /** An `OrderedDict`: keys in insertion order, each key at most once. */
  type Pairs<V> = seq<(string, V)>

  function Keys<V>(ps: Pairs<V>): (r: seq<string>)
    ensures |r| == |ps|
    ensures forall k :: 0 <= k < |ps| ==> r[k] == ps[k].0
  {
    if |ps| == 0 then [] else [ps[0].0] + Keys(ps[1..])
  }

  function Lookup<V>(ps: Pairs<V>, key: string): (r: Option<V>)
    ensures r.Some? <==> key in Keys(ps)
  {
    if |ps| == 0 then None
    else if ps[0].0 == key then Some(ps[0].1)
    else Lookup(ps[1..], key)
  }

  /** `d[key] = value`: an existing key keeps its place, a new key goes last. */
  function Put<V>(ps: Pairs<V>, key: string, value: V): (r: Pairs<V>)
    ensures Lookup(r, key) == Some(value)
    ensures forall other :: other != key ==> Lookup(r, other) == Lookup(ps, other)
    ensures key in Keys(ps) ==> Keys(r) == Keys(ps)
    ensures key !in Keys(ps) ==> Keys(r) == Keys(ps) + [key]
  {
    if |ps| == 0 then [(key, value)]
    else if ps[0].0 == key then
      KeysCons((key, value), ps[1..]);
      LookupCons((key, value), ps[1..]);
      [(key, value)] + ps[1..]
    else
      var rest := Put(ps[1..], key, value);
      assert ps == [ps[0]] + ps[1..];
      PutConsKeys(ps[0], ps[1..], rest, key);
      PutConsLookup(ps[0], ps[1..], rest, key, value);
      [ps[0]] + rest
  }

  /** An entry kept in front of a `Put` into the rest: the keys. */
  lemma PutConsKeys<V>(p: (string, V), tail: Pairs<V>, rest: Pairs<V>, key: string)
    requires p.0 != key
    requires key in Keys(tail) ==> Keys(rest) == Keys(tail)
    requires key !in Keys(tail) ==> Keys(rest) == Keys(tail) + [key]
    ensures key in Keys([p] + tail) ==> Keys([p] + rest) == Keys([p] + tail)
    ensures key !in Keys([p] + tail) ==> Keys([p] + rest) == Keys([p] + tail) + [key]
  {
    KeysCons(p, rest);
    KeysCons(p, tail);
    assert key !in Keys(tail) ==> [p.0] + (Keys(tail) + [key]) == [p.0] + Keys(tail) + [key];
  }

  /** An entry kept in front of a `Put` into the rest: the lookups. */
  lemma PutConsLookup<V>(p: (string, V), tail: Pairs<V>, rest: Pairs<V>, key: string, value: V)
    requires p.0 != key
    requires Lookup(rest, key) == Some(value)
    requires forall other :: other != key ==> Lookup(rest, other) == Lookup(tail, other)
    ensures Lookup([p] + rest, key) == Some(value)
    ensures forall other :: other != key ==> Lookup([p] + rest, other) == Lookup([p] + tail, other)
  {
    LookupCons(p, rest);
    LookupCons(p, tail);
  }

  /** The keys of a dictionary with one entry put in front. */
  lemma KeysCons<V>(p: (string, V), ps: Pairs<V>)
    ensures Keys([p] + ps) == [p.0] + Keys(ps)
  {
    assert ([p] + ps)[1..] == ps;
  }

  /** The lookups in a dictionary with one entry put in front. */
  lemma LookupCons<V>(p: (string, V), ps: Pairs<V>)
    ensures forall key :: Lookup([p] + ps, key) == if p.0 == key then Some(p.1) else Lookup(ps, key)
  {
    assert ([p] + ps)[1..] == ps;
  }

  /** `del d[key]` on a dictionary whose keys are distinct: the other entries
      keep their order. */
  function Remove<V>(ps: Pairs<V>, key: string): (r: Pairs<V>)
    ensures Lookup(r, key) == None
    ensures forall other :: other != key ==> Lookup(r, other) == Lookup(ps, other)
    ensures |r| <= |ps|
  {
    if |ps| == 0 then []
    else if ps[0].0 == key then Remove(ps[1..], key)
    else [ps[0]] + Remove(ps[1..], key)
  }

  /** Concatenation regroups freely, and the empty sequence is its unit. */
  lemma ConcatAssoc<T>(a: seq<T>, b: seq<T>, c: seq<T>)
    ensures a + (b + c) == (a + b) + c
    ensures a + [] == a
  {
  }
}
