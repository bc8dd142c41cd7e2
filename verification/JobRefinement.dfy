/** The registry that JobManager.dfy updates in place is the one that the protocol of JobProtocol.dfy steps. */
module JobRefinement {
  import opened Jobs
  import opened JobManager
  import opened JobProtocol

  /** A registry of jobs, seen through their values, as a registry of runs. */
  ghost predicate Abstracts(views: map<string, Job>, registry: map<string, nat>, runs: seq<Run>) {
    && views.Keys == registry.Keys
    && forall id | id in views :: registry[id] < |runs| && runs[registry[id]].job == views[id]
  }

  function Kept(s: State): map<string, nat> {
    map id | id in Survivors(s) :: s.registry[id]
  }

  lemma SameSurvivors(views: map<string, Job>, s: State)
    requires Abstracts(views, s.registry, s.runs)
    ensures Abstracts(Unexpired(views, s.now), Kept(s), s.runs)
    ensures |Unexpired(views, s.now)| < MAX_BACKGROUND_JOBS <==> AddSucceeds(s)
  {
    var kept := Unexpired(views, s.now);
    assert kept.Keys == Survivors(s) && |kept| == |kept.Keys|;
  }

  /** A run that is not filed may change without the registry noticing. */
  lemma OtherRun(views: map<string, Job>, registry: map<string, nat>, runs: seq<Run>, r: nat, run: Run, id: string)
    requires Abstracts(views, registry, runs) && r < |runs| && forall other | other in registry :: registry[other] != r
    ensures Abstracts(views, registry, runs[r := run])
    ensures Abstracts(views[id := run.job], registry[id := r], runs[r := run])
  {
  }

  lemma NotFiled(s: State, r: nat)
    requires Inv(s) && Enabled(s, Register(r))
    ensures forall id | id in Kept(s) :: Kept(s)[id] != r
  {
    RegistersUnnamed(s, Register(r));
    forall id | id in s.registry
      ensures s.registry[id] != r
    {
      assert Holds(s, s.registry[id]);
    }
  }

  /** Register, as a step on the registry and on the one run it touches. */
  lemma RegisterStep(s: State, r: nat)
    requires Enabled(s, Register(r))
    ensures var t, id := Apply(s, Register(r)), FormatId(NextCounter(s.counter));
            && t.runs == s.runs[r := t.runs[r]]
            && (AddSucceeds(s) ==>
                  t.registry == Kept(s)[id := r] && t.counter == NextCounter(s.counter)
                  && t.runs[r].job == s.runs[r].job.(id := id))
            && (!AddSucceeds(s) ==>
                  t.registry == Kept(s) && t.counter == s.counter && t.runs[r].job == s.runs[r].job)
  {
  }

  /** What Add does is what the protocol's action Register does. */
  lemma AddIsRegister(
    s: State, r: nat, views: map<string, Job>, ok: bool, views': map<string, Job>, counter': nat, job': Job)
    requires Inv(s) && Enabled(s, Register(r)) && Abstracts(views, s.registry, s.runs)
    requires AddSpec(views, s.counter, s.runs[r].job, s.now, ok, views', counter', job')
    ensures var t := Apply(s, Register(r));
            && (ok <==> AddSucceeds(s))
            && Abstracts(views', t.registry, t.runs) && counter' == t.counter && t.runs[r].job == job'
  {
    var t := Apply(s, Register(r));
    SameSurvivors(views, s);
    NotFiled(s, r);
    RegisterStep(s, r);
    OtherRun(Unexpired(views, s.now), Kept(s), s.runs, r, t.runs[r], job'.id);
  }
}
