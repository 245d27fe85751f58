/** Which headers are taken for a Payment challenge, and which parameters one must have. */
module AuthParamHeaders {
  import opened Basics
  import opened Text
  import opened AuthParams
  import opened AuthParamProofs
  import opened AuthParamNames

  /** A header is refused as another scheme unless it starts with "Payment", in any letter case, and white space. */
  lemma SchemeExactly(header: string)
    ensures ParseHeader(header) != Err(NotAPaymentChallenge)
      <==> |header| >= 8 && IsWhitespace(header[7])
           && forall i :: 0 <= i < 7 ==> header[i] == "payment"[i] || header[i] == "PAYMENT"[i]
  {
    if |header| >= 8 {
      forall i | 0 <= i < 7
        ensures Lower(header[i]) == "payment"[i] <==> header[i] == "payment"[i] || header[i] == "PAYMENT"[i]
      {
        assert "payment"[i] == Lower("PAYMENT"[i]);
      }
    }
  }

  /** Letters have their lower case, and every other character is itself. */
  lemma LowerExactly(c: char)
    ensures forall i :: 0 <= i < 26 ==> Lower(UPPER[i]) == LOWER[i]
    ensures c !in UPPER ==> Lower(c) == c
  {
    Runs();
    InRun(UPPER, 'A', c);
  }

  /** The token characters of section 5.6.2 of RFC 9110. */
  lemma TokenCharsExactly(c: char)
    ensures IsTokenChar(c) <==> c in LOWER || c in UPPER || c in DIGITS || c in "!#$%&'*+-.^_`|~"
  {
    Runs();
    InRun(LOWER, 'a', c);
    InRun(UPPER, 'A', c);
    InRun(DIGITS, '0', c);
  }

  /** The parameter is there, with a value. */
  predicate Given(params: Params, name: string) {
    name in params && params[name] != ""
  }

  lemma FirstMissingExactly(params: Params)
    ensures FirstMissing(params, REQUIRED) ==
      if !Given(params, "id") then Some("id")
      else if !Given(params, "realm") then Some("realm")
      else if !Given(params, "method") then Some("method")
      else if !Given(params, "intent") then Some("intent")
      else if !Given(params, "request") then Some("request")
      else None
  {
    var names := REQUIRED;
    assert names == ["id"] + ["realm", "method", "intent", "request"];
    MissingStep(params, "id", ["realm", "method", "intent", "request"]);
    MissingStep(params, "realm", ["method", "intent", "request"]);
    MissingStep(params, "method", ["intent", "request"]);
    MissingStep(params, "intent", ["request"]);
    MissingStep(params, "request", []);
    assert ["realm"] + ["method", "intent", "request"] == ["realm", "method", "intent", "request"];
    assert ["method"] + ["intent", "request"] == ["method", "intent", "request"];
    assert ["intent"] + ["request"] == ["intent", "request"];
    assert ["request"] + [] == ["request"];
  }

  lemma MissingStep(params: Params, name: string, rest: seq<string>)
    ensures FirstMissing(params, [name] + rest) ==
      if !Given(params, name) then Some(name) else FirstMissing(params, rest)
  {
    assert ([name] + rest)[1..] == rest;
  }

  /** What a challenge with these parameters is answered. */
  function Outcome(params: Params): Result<Params, HeaderError> {
    if !Given(params, "id") then Err(MissingParam("id"))
    else if !Given(params, "realm") then Err(MissingParam("realm"))
    else if !Given(params, "method") then Err(MissingParam("method"))
    else if !Given(params, "intent") then Err(MissingParam("intent"))
    else if !Given(params, "request") then Err(MissingParam("request"))
    else Ok(params)
  }

  lemma OutcomeExactly(params: Params, r: Result<Params, HeaderError>)
    requires r ==
      match FirstMissing(params, REQUIRED)
      case Some(name) => Err(MissingParam(name))
      case None => Ok(params)
    ensures r == Outcome(params)
  {
    FirstMissingExactly(params);
  }

  /**
    A printed challenge parses to its parameters if and only if all five required ones have a value; otherwise the
    first of them that has none is named.
   */
  lemma ChallengeExactly(marker: string, space: string, es: seq<Element>)
    requires |marker| == 7 && LowerText(marker) == "payment"
    requires space != "" && AllWhitespace(space) && Printable(es)
    ensures ParseHeader(marker + space + ListText(es)) == Outcome(Meaning(es, map[]))
  {
    ParsedChallenge(marker, space, es);
    OutcomeExactly(Meaning(es, map[]), ParseHeader(marker + space + ListText(es)));
  }

  lemma ParsedChallenge(marker: string, space: string, es: seq<Element>)
    requires |marker| == 7 && LowerText(marker) == "payment"
    requires space != "" && AllWhitespace(space) && Printable(es)
    ensures ParseHeader(marker + space + ListText(es)) ==
      match FirstMissing(Meaning(es, map[]), REQUIRED)
      case Some(name) => Err(MissingParam(name))
      case None => Ok(Meaning(es, map[]))
  {
    LoweredMarker(marker);
    ParseOfHeader(marker, space, es);
  }

  lemma LoweredMarker(marker: string)
    requires |marker| == 7 && LowerText(marker) == "payment"
    ensures forall i :: 0 <= i < 7 ==> Lower(marker[i]) == "payment"[i]
  {
    assert forall i :: 0 <= i < 7 ==> LowerText(marker)[i] == Lower(marker[i]);
  }

  // ----- any text, well formed or not -----

  /** Whether the text leaves the scanner inside quotes, and just after a backslash there. */
  function StateAfter(s: string, quoted: bool, escaped: bool): (bool, bool)
    decreases |s|
  {
    if s == "" then (quoted, escaped)
    else if escaped then StateAfter(s[1..], quoted, false)
    else if quoted && s[0] == '\\' then StateAfter(s[1..], true, true)
    else StateAfter(s[1..], if s[0] == '"' then !quoted else quoted, false)
  }

  /** The k-th character is a comma outside quotes. */
  predicate Cut(s: string, k: nat, quoted: bool, escaped: bool)
    requires k < |s|
  {
    s[k] == ',' && StateAfter(s[..k], quoted, escaped) == (false, false)
  }

  lemma CutNext(s: string, k: nat, quoted: bool, escaped: bool)
    requires 0 < k < |s|
    ensures var (q, e) := StateAfter(s[..1], quoted, escaped); Cut(s, k, quoted, escaped) == Cut(s[1..], k - 1, q, e)
  {
    assert s[..k][1..] == s[1..][..k - 1] && s[..1][1..] == "";
  }

  lemma SplitShift(s: string, current: string, quoted: bool, escaped: bool, q: bool, e: bool)
    requires s != "" && (q, e) == StateAfter(s[..1], quoted, escaped) && !Cut(s, 0, quoted, escaped)
    ensures SplitFrom(s, current, quoted, escaped) == SplitFrom(s[1..], current + [s[0]], q, e)
  {
    assert s[..1][1..] == "" && s[..0] == "";
  }

  lemma {:induction false} NoCut(s: string, current: string, quoted: bool, escaped: bool)
    requires forall k :: 0 <= k < |s| ==> !Cut(s, k, quoted, escaped)
    ensures SplitFrom(s, current, quoted, escaped) == [current + s]
    decreases |s|
  {
    if s == "" {
      assert current + s == current;
    } else {
      var (q, e) := StateAfter(s[..1], quoted, escaped);
      forall k | 0 <= k < |s[1..]| ensures !Cut(s[1..], k, q, e) {
        CutNext(s, k + 1, quoted, escaped);
      }
      SplitShift(s, current, quoted, escaped, q, e);
      NoCut(s[1..], current + [s[0]], q, e);
      assert current + [s[0]] + s[1..] == current + s;
    }
  }

  lemma {:induction false} FirstCut(s: string, current: string, quoted: bool, escaped: bool, k: nat)
    requires k < |s| && Cut(s, k, quoted, escaped) && forall j :: 0 <= j < k ==> !Cut(s, j, quoted, escaped)
    ensures SplitFrom(s, current, quoted, escaped) == [current + s[..k]] + SplitFrom(s[k + 1..], "", false, false)
    decreases |s|
  {
    if k == 0 {
      assert s[..0] == "" && current + "" == current;
    } else {
      var (q, e) := StateAfter(s[..1], quoted, escaped);
      CutNext(s, k, quoted, escaped);
      forall j | 0 <= j < k - 1 ensures !Cut(s[1..], j, q, e) {
        CutNext(s, j + 1, quoted, escaped);
      }
      SplitShift(s, current, quoted, escaped, q, e);
      FirstCut(s[1..], current + [s[0]], q, e, k - 1);
      assert current + [s[0]] + s[1..][..k - 1] == current + s[..k] && s[1..][k..] == s[k + 1..];
    }
  }

  /** Text without a comma outside quotes is one piece; otherwise the first such comma ends the first piece. */
  lemma SplitExactly(s: string, k: nat)
    requires k <= |s| && forall j :: 0 <= j < k ==> !Cut(s, j, false, false)
    ensures k == |s| ==> SplitFrom(s, "", false, false) == [s]
    ensures k < |s| && Cut(s, k, false, false) ==>
      SplitFrom(s, "", false, false) == [s[..k]] + SplitFrom(s[k + 1..], "", false, false)
  {
    if k == |s| {
      NoCut(s, "", false, false);
      assert "" + s == s;
    } else if Cut(s, k, false, false) {
      FirstCut(s, "", false, false, k);
      assert "" + s[..k] == s[..k];
    }
  }

  /** A part counts from its first "=" on, if something stands before it; any other part is skipped. */
  lemma PartsExactly(params: Params, name: string, rest: string)
    requires '=' !in name
    ensures WithPart(params, name) == params
    ensures WithPart(params, name + "=" + rest) == if name == "" then params else params[Trim(name) := Unquote(rest)]
  {
    NoEquals(name);
    if name == "" {
      assert "" + "=" + rest == "=" + rest;
    } else {
      ReadPart(name, rest, params);
    }
  }

  lemma {:induction false} NoEquals(part: string)
    requires '=' !in part
    ensures EqualsIndex(part) == |part|
  {
    if part == "" {
    } else {
      NoEquals(part[1..]);
    }
  }

  /** A value is unquoted exactly when, trimmed, it begins and ends with a quote; a single quote is both. */
  lemma UnquoteExactly(value: string)
    ensures var t := Trim(value);
      Unquote(value) ==
        if t != "" && t[0] == '"' && t[|t| - 1] == '"' then
          if |t| == 1 then "" else ReplaceEscapedBackslashes(ReplaceEscapedQuotes(t[1..|t| - 1]))
        else t
  {
  }
}
