/** A list of checks made in order, and the verdict of the first that fails. */
module Checks {
  datatype Check<S> = Check(passed: bool, failure: S)

  predicate FirstFailing<S>(checks: seq<Check<S>>, k: nat) {
    k < |checks| && !checks[k].passed && forall j :: 0 <= j < k ==> checks[j].passed
  }

  predicate AllPass<S>(checks: seq<Check<S>>) {
    forall j :: 0 <= j < |checks| ==> checks[j].passed
  }

  function Verdict<S>(checks: seq<Check<S>>, ok: S): (verdict: S)
    ensures AllPass(checks) ==> verdict == ok
    ensures forall k: nat :: FirstFailing(checks, k) ==> verdict == checks[k].failure
  {
    if checks == [] then ok
    else if !checks[0].passed then checks[0].failure
    else
      var rest := checks[1..];
      assert AllPass(checks) ==> AllPass(rest);
      assert forall k: nat :: FirstFailing(checks, k) ==>
               k > 0 && FirstFailing(rest, k - 1) && rest[k - 1] == checks[k];
      Verdict(rest, ok)
  }

  lemma VerdictAppend<S>(a: seq<Check<S>>, b: seq<Check<S>>, ok: S)
    ensures Verdict(a + b, ok) == if AllPass(a) then Verdict(b, ok) else Verdict(a, ok)
  {
    if a == [] {
      assert a + b == b;
    } else if a[0].passed {
      assert (a + b)[0] == a[0] && (a + b)[1..] == a[1..] + b;
      VerdictAppend(a[1..], b, ok);
      assert AllPass(a) <==> AllPass(a[1..]) by { assert forall j :: 0 < j < |a| ==> a[j] == a[1..][j - 1]; }
    }
  }
}
