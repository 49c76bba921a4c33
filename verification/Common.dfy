/** Values shared by every component: optional values, the integer clock and
    the "namespace/name" keys of the ledger, the span store and the cooldown map. */
module Common {

  datatype Option<+T> = None | Some(value: T)

  /** A clock reading or a span timestamp, in nanoseconds. */
  type Time = int

  const SECOND: int := 1_000_000_000
  const MINUTE: int := 60 * SECOND
  const HOUR: int := 60 * MINUTE
  const DAY: int := 24 * HOUR

  function Key(namespace: string, name: string): string {
    namespace + "/" + name
  }

  /** Kubernetes namespaces contain no slash. */
  predicate SlashFree(s: string) {
    '/' !in s
  }

  /** The namespace is what precedes the first slash, so a key names one pair only. */
  lemma KeyInjective(ns1: string, name1: string, ns2: string, name2: string)
    requires SlashFree(ns1) && SlashFree(ns2)
    ensures Key(ns1, name1) == Key(ns2, name2) <==> ns1 == ns2 && name1 == name2
  {
    var k1, k2 := Key(ns1, name1), Key(ns2, name2);
    if k1 == k2 {
      assert k1[|ns1|] == '/' && k2[|ns2|] == '/';
      if |ns1| < |ns2| {
        assert false;
      } else if |ns2| < |ns1| {
        assert false;
      }
      assert ns1 == k1[..|ns1|] && ns2 == k2[..|ns2|];
      assert name1 == k1[|ns1| + 1..] && name2 == k2[|ns2| + 1..];
    }
  }

  /** Index of the last element satisfying p, or -1. */
  function LastIndex<T>(s: seq<T>, p: T -> bool): (i: int)
    ensures -1 <= i < |s|
    ensures i >= 0 ==> p(s[i])
    ensures forall j :: i < j < |s| ==> !p(s[j])
  {
    if s == [] then -1
    else if p(s[|s| - 1]) then |s| - 1
    else LastIndex(s[..|s| - 1], p)
  }
}
