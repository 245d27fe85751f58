/**
  Section 11.2 of RFC 9110 matches parameter names without regard to case and lets each occur once; the code looks
  names up as they are written.
 */
module AuthParamNames {
  import opened Basics
  import opened Text
  import opened AuthParams
  import opened AuthParamProofs

  /** The names whose values the challenge object takes. */
  const READ: seq<string> := REQUIRED + ["expires", "description", "opaque"]

  function LowerText(s: string): (t: string)
    ensures |t| == |s|
  {
    seq(|s|, i requires 0 <= i < |s| => Lower(s[i]))
  }

  /** What the code takes from the parameters: an empty value counts as absent. */
  function Field(params: Params, name: string): Option<string> {
    if name in params && params[name] != "" then Some(params[name]) else None
  }

  function LowerNames(es: seq<Element>): (lowered: seq<Element>)
    ensures |lowered| == |es|
    ensures forall i :: 0 <= i < |es| ==>
      lowered[i] == if es[i].Empty? then es[i] else es[i].(key := LowerText(es[i].key))
  {
    seq(|es|, i requires 0 <= i < |es| => if es[i].Empty? then es[i] else es[i].(key := LowerText(es[i].key)))
  }

  /** The parameters with their names read as the standard reads them. */
  function MeaningIgnoringCase(es: seq<Element>): Params {
    Meaning(LowerNames(es), map[])
  }

  /** No name occurs twice. */
  predicate Once(es: seq<Element>) {
    forall i, j :: 0 <= i < j < |es| && !es[i].Empty? && !es[j].Empty? ==> es[i].key != es[j].key
  }

  lemma {:induction false} MeaningAt(es: seq<Element>, params: Params, i: nat)
    requires Once(es) && i < |es| && !es[i].Empty?
    ensures es[i].key in Meaning(es, params) && Meaning(es, params)[es[i].key] == es[i].value
    decreases |es|
  {
    var next := if es[0].Empty? then params else params[es[0].key := es[0].value];
    if i == 0 {
      assert forall j :: 0 <= j < |es[1..]| ==> es[1..][j] == es[j + 1];
      MeaningElsewhere(es[1..], next, es[0].key);
    } else {
      MeaningAt(es[1..], next, i - 1);
    }
  }

  lemma {:induction false} MeaningElsewhere(es: seq<Element>, params: Params, name: string)
    requires forall i :: 0 <= i < |es| && !es[i].Empty? ==> es[i].key != name
    ensures name in Meaning(es, params) <==> name in params
    ensures name in params ==> Meaning(es, params)[name] == params[name]
    decreases |es|
  {
    if es == [] {
    } else {
      MeaningElsewhere(es[1..], if es[0].Empty? then params else params[es[0].key := es[0].value], name);
    }
  }

  /** The reading of one name, with and without regard to case. */
  predicate Agrees(es: seq<Element>, name: string) {
    Field(Meaning(es, map[]), name) == Field(MeaningIgnoringCase(es), name)
  }

  /** A name with a value that the code would read if it were written in lower case is so written. */
  predicate AsRead(e: Element) {
    !e.Empty? && e.value != "" && LowerText(e.key) in READ ==> e.key == LowerText(e.key)
  }

  lemma LoweredOnce(es: seq<Element>)
    requires Once(LowerNames(es))
    ensures Once(es)
  {
    forall i, j | 0 <= i < j < |es| && !es[i].Empty? && !es[j].Empty? ensures es[i].key != es[j].key {
      assert LowerNames(es)[i].key != LowerNames(es)[j].key;
    }
  }

  lemma AsReadAgrees(es: seq<Element>, name: string)
    requires Once(LowerNames(es)) && name in READ && forall i :: 0 <= i < |es| ==> AsRead(es[i])
    ensures Agrees(es, name)
  {
    LoweredOnce(es);
    var lowered := LowerNames(es);
    if i :| 0 <= i < |es| && !es[i].Empty? && LowerText(es[i].key) == name {
      MeaningAt(lowered, map[], i);
      if es[i].key == name {
        MeaningAt(es, map[], i);
      } else {
        assert AsRead(es[i]);
        NobodyElse(es, name, i);
        MeaningElsewhere(es, map[], name);
      }
    } else {
      ReadIsLower(name);
      MeaningElsewhere(lowered, map[], name);
      MeaningElsewhere(es, map[], name);
    }
  }

  /** The read names are written in lower case. */
  lemma ReadIsLower(name: string)
    requires name in READ
    ensures LowerText(name) == name
  {
  }

  lemma NobodyElse(es: seq<Element>, name: string, i: nat)
    requires Once(LowerNames(es)) && name in READ
    requires i < |es| && !es[i].Empty? && LowerText(es[i].key) == name && es[i].key != name
    ensures forall j :: 0 <= j < |es| && !es[j].Empty? ==> es[j].key != name
  {
    ReadIsLower(name);
    forall j | 0 <= j < |es| && j != i && !es[j].Empty? ensures LowerText(es[j].key) != name {
      assert LowerNames(es)[j].key != LowerNames(es)[i].key;
    }
  }

  lemma OtherwiseDisagrees(es: seq<Element>, i: nat)
    requires Once(LowerNames(es)) && i < |es| && !AsRead(es[i])
    ensures LowerText(es[i].key) in READ && !Agrees(es, LowerText(es[i].key))
  {
    var name := LowerText(es[i].key);
    MeaningAt(LowerNames(es), map[], i);
    NobodyElse(es, name, i);
    MeaningElsewhere(es, map[], name);
  }

  /** The challenge object takes the same values from both. */
  predicate SameFields(params: Params, other: Params) {
    forall name :: name in READ ==> Field(params, name) == Field(other, name)
  }

  predicate AllAsRead(es: seq<Element>) {
    forall i :: 0 <= i < |es| ==> AsRead(es[i])
  }

  lemma AgreementExactly(es: seq<Element>, params: Params)
    requires Once(LowerNames(es)) && params == Meaning(es, map[])
    ensures SameFields(params, MeaningIgnoringCase(es)) <==> AllAsRead(es)
  {
    if AllAsRead(es) {
      forall name | name in READ
        ensures Field(params, name) == Field(MeaningIgnoringCase(es), name)
      {
        AsReadAgrees(es, name);
      }
    } else {
      var i :| 0 <= i < |es| && !AsRead(es[i]);
      OtherwiseDisagrees(es, i);
    }
  }

  predicate Printable(es: seq<Element>) {
    es != [] && forall i :: 0 <= i < |es| ==> WellFormed(es[i])
  }

  /**
    For every printed list in which no name occurs twice, ignoring case: what the code reads is what the standard
    reads if and only if every parameter with a value whose name the code would read in lower case has it in lower
    case.
   */
  lemma NamesReadExactly(es: seq<Element>)
    requires Once(LowerNames(es)) && Printable(es)
    ensures SameFields(ParseParams(ListText(es)), MeaningIgnoringCase(es)) <==> AllAsRead(es)
  {
    assert ParseParams(ListText(es)) == Meaning(es, map[]) by { ParseOfList(es); }
    AgreementExactly(es, ParseParams(ListText(es)));
  }

  /** `Payment ID="x"`, for any value: the standard reads an id, and the code misses it. */
  lemma CapitalIdIsMissing(value: string)
    requires value != ""
    ensures var es := [QuotedParam("", "ID", "", "", value, "")];
      && Field(MeaningIgnoringCase(es), "id") == Some(value)
      && ParseHeader("Payment" + " " + ListText(es)) == Err(MissingParam("id"))
  {
    var es := [QuotedParam("", "ID", "", "", value, "")];
    assert LowerText("ID") == "id";
    MeaningAt(LowerNames(es), map[], 0);
    ParseOfHeader("Payment", " ", es);
    MeaningElsewhere(es, map[], "id");
    assert REQUIRED[0] == "id";
  }
}
