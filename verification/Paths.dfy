/** Runs, piece by piece. */
module Paths {
  import opened Contexts
  import opened Releases
  import opened Scheduler

  ghost predicate IsPath(tr: seq<Sys>, s: Sys, s': Sys) {
    && |tr| > 0 && tr[0] == s && tr[|tr| - 1] == s'
    && forall i {:trigger Next(tr[i], tr[i + 1])} :: 0 <= i < |tr| - 1 ==> Next(tr[i], tr[i + 1])
  }

  ghost predicate Leads(s: Sys, s': Sys) {
    exists tr :: IsPath(tr, s, s')
  }

  lemma Stay(s: Sys)
    ensures Leads(s, s)
  {
    assert IsPath([s], s, s);
  }

  lemma Then(s: Sys, s1: Sys, e: Event)
    requires Leads(s, s1) && Enabled(s1, e)
    ensures Leads(s, After(s1, e))
  {
    var tr :| IsPath(tr, s, s1);
    var s2 := After(s1, e);
    var tr2 := tr + [s2];
    forall i | 0 <= i < |tr2| - 1 ensures Next(tr2[i], tr2[i + 1]) {
      if i < |tr| - 1 { assert Next(tr[i], tr[i + 1]); } else { assert Next(s1, s2); }
    }
    assert IsPath(tr2, s, s2);
  }

  /** One more event of a run that has kept the invariant. */
  lemma Go(s0: Sys, s: Sys, e: Event) returns (s': Sys)
    requires Leads(s0, s) && Core(s)
    requires match e
             case Ran(c) => c < |s.ctxs| && s.ctxs[c].ready > 0
             case _ => Enabled(s, e)
    ensures Enabled(s, e) && s' == After(s, e) && Leads(s0, s') && Core(s')
  {
    if e.Ran? { RunCore(s, e.c); }
    s' := After(s, e);
    NextCore(s, e);
    Then(s0, s, e);
  }

  lemma Chain(s: Sys, s1: Sys, s2: Sys)
    requires Leads(s, s1) && Leads(s1, s2)
    ensures Leads(s, s2)
  {
    var tr1 :| IsPath(tr1, s, s1);
    var tr2 :| IsPath(tr2, s1, s2);
    var tr := tr1 + tr2[1..];
    forall i | 0 <= i < |tr| - 1 ensures Next(tr[i], tr[i + 1]) {
      if i < |tr1| - 1 { assert Next(tr1[i], tr1[i + 1]); }
      else {
        var j := i - (|tr1| - 1);
        assert Next(tr2[j], tr2[j + 1]);
      }
    }
    assert IsPath(tr, s, s2);
  }
}
