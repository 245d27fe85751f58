/** The loops of the source. */
module AuthParamParser {
  import opened Basics
  import opened Text
  import opened AuthParams

  /** splitAuthParams: one pass with two flags and the start of the current element. */
  method Split(input: string) returns (parts: seq<string>)
    ensures parts == SplitAuthParams(input)
  {
    var pieces: seq<string> := [];
    var start, index := 0, 0;
    var quoted, escaped := false, false;
    while index < |input|
      invariant 0 <= start <= index <= |input|
      invariant pieces + SplitFrom(input[index..], input[start..index], quoted, escaped)
        == SplitFrom(input, "", false, false)
    {
      var c := input[index];
      assert input[index..][1..] == input[index + 1..];
      assert input[start..index] + [c] == input[start..index + 1];
      if escaped {
        escaped := false;
      } else if c == '\\' && quoted {
        escaped := true;
      } else if c == '"' {
        quoted := !quoted;
      } else if c == ',' && !quoted {
        assert pieces + ([input[start..index]] + SplitFrom(input[index + 1..], "", quoted, false))
          == (pieces + [input[start..index]]) + SplitFrom(input[index + 1..], "", quoted, false);
        pieces := pieces + [input[start..index]];
        start := index + 1;
        assert input[index + 1..index + 1] == "";
      }
      index := index + 1;
    }
    assert input[index..] == "" && input[start..index] == input[start..];
    pieces := pieces + [input[start..]];
    parts := Kept(pieces);
  }

  /** The loop that fills `params`. */
  method Parse(input: string) returns (params: Params)
    ensures params == ParseParams(input)
  {
    var parts := Split(input);
    params := map[];
    var i := 0;
    while i < |parts|
      invariant 0 <= i <= |parts|
      invariant WithParts(params, parts[i..]) == ParseParams(input)
    {
      var part := parts[i];
      assert parts[i..][1..] == parts[i + 1..];
      var equals := EqualsIndex(part);
      if 0 < equals < |part| {
        params := params[Trim(part[..equals]) := Unquote(part[equals + 1..])];
      }
      i := i + 1;
    }
  }
}
