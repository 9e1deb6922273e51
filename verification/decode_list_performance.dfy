/** The stand-alone copy of the multi-value decoder kept beside the library
    for timing. Its loop is the library's loop; the contract ties it to the
    library decoder's specification, so the two agree on every input. */
module DecodeListPerformance {
  import opened Common
  import MultiValue

  /** `_decode_list(mv)` of the timing script. */
  method DecodeList(mv: string) returns (r: Option<seq<string>>)
    ensures r == MultiValue.Decode(mv)
    ensures |mv| == 0 ==> r == None
  {
    if |mv| == 0 {
      return None;
    }
    var inValue := false;
    var value := "";
    var i := 0;
    var l := [];
    while i < |mv|
      invariant 0 <= i <= |mv|
      invariant MultiValue.DecodeFrom(mv, i, inValue, value, l) == MultiValue.Decode(mv)
    {
      if !inValue {
        if mv[i] == '$' {
          inValue := true;
        } else if mv[i] != ';' {
          return None;
        }
      } else {
        if mv[i] == '$' && i + 1 < |mv| && mv[i + 1] == '$' {
          value := value + "$";
          i := i + 1;
        } else if mv[i] == '$' {
          inValue := false;
          l := l + [value];
          value := "";
        } else {
          value := value + [mv[i]];
        }
      }
      i := i + 1;
    }
    return Some(l);
  }
}
