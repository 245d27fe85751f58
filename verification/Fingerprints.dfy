/** What the fingerprint of a request tells apart. */
module Fingerprints {
  import opened Basics
  import opened LeaseProtocol

  ghost predicate Injective(sha256: string -> string) {
    forall a, b :: sha256(a) == sha256(b) ==> a == b
  }

  predicate OneLine(s: string) {
    '\n' !in s
  }

  function ResourceText(call: HttpCall): string {
    if call.resource.Some? then call.resource.value else ""
  }

  /** The part before the first separator is determined by the whole text. */
  lemma SplitAtFirst(a: string, x: string, b: string, y: string)
    requires OneLine(a) && OneLine(b) && a + "\n" + x == b + "\n" + y
    ensures a == b && x == y
  {
    var s := a + "\n" + x;
    assert s[|a|] == '\n' && s[|b|] == '\n';
    assert forall k :: 0 <= k < |a| ==> s[k] == a[k] && s[k] != '\n';
    assert forall k :: 0 <= k < |b| ==> s[k] == b[k] && s[k] != '\n';
    assert a == s[..|a|] == s[..|b|] == b;
    assert x == s[|a| + 1..] == s[|b| + 1..] == y;
  }

  lemma Grouped(a: string, b: string, c: string, d: string)
    ensures a + "\n" + b + "\n" + c + "\n" + d == a + "\n" + (b + "\n" + (c + "\n" + d))
  {
  }

  /**
    For a digest without collisions and calls whose verb, operation and resource are one line each, two fingerprints
    agree exactly when verb, operation, resource and body do; a missing resource counts as the empty one.
   */
  lemma FingerprintsExactly(server: Server, a: HttpCall, b: HttpCall)
    requires Injective(server.sha256)
    requires OneLine(a.verb) && OneLine(a.operation) && OneLine(ResourceText(a))
    requires OneLine(b.verb) && OneLine(b.operation) && OneLine(ResourceText(b))
    ensures Fingerprint(server, a) == Fingerprint(server, b)
      <==> a.verb == b.verb && a.operation == b.operation && ResourceText(a) == ResourceText(b) && a.body == b.body
  {
    if Fingerprint(server, a) == Fingerprint(server, b) {
      Grouped(a.verb, a.operation, ResourceText(a), a.body);
      Grouped(b.verb, b.operation, ResourceText(b), b.body);
      SplitAtFirst(a.verb, a.operation + "\n" + (ResourceText(a) + "\n" + a.body),
                   b.verb, b.operation + "\n" + (ResourceText(b) + "\n" + b.body));
      SplitAtFirst(a.operation, ResourceText(a) + "\n" + a.body, b.operation, ResourceText(b) + "\n" + b.body);
      SplitAtFirst(ResourceText(a), a.body, ResourceText(b), b.body);
    }
  }
}
