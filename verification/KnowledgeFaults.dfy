/** Runs of the knowledge-bank operations in which background jobs are interrupted by
    an exception in the middle of their ingest: the tables stay in step, and the
    counters fall behind for good by what such jobs had stored. */
module KnowledgeFaults {
  import opened Options
  import opened VectorMath
  import opened VectorStore
  import opened Ingest
  import opened KnowledgeBank
  import opened KnowledgeRuns

  datatype FaultyEvent =
    | Plain(event: Event)
      // Job `id` runs, and turn n of its loop raises.
    | Interrupt(id: Id, gens: seq<Generation>, n: nat, plan: Option<Plan>)

  ghost predicate Enables(s: State, f: FaultyEvent) {
    if f.Plain? then Enabled(s, f.event) else f.n <= |f.gens|
  }

  // The loop is reached only for a job whose knowledge base its customer still has.
  predicate Reached(s: State, f: FaultyEvent) {
    f.Interrupt? && f.n <= |f.gens| && f.id in s.jobs && Owns(s, s.jobs[f.id].customer, s.jobs[f.id].kb)
  }

  function After(embed: string -> Vector, s: State, f: FaultyEvent): State {
    if f.Plain? then Next(embed, s, f.event)
    else if Reached(s, f) then InterruptedJob(s, f.id, f.gens, f.n, embed, f.plan)
    else DoRunJob(s, f.id, f.gens, embed, f.plan).0
  }

  function RunFaulty(embed: string -> Vector, s: State, fs: seq<FaultyEvent>): State
    decreases |fs|
  {
    if fs == [] then s else RunFaulty(embed, After(embed, s, fs[0]), fs[1..])
  }

  ghost predicate ValidFaulty(embed: string -> Vector, s: State, fs: seq<FaultyEvent>)
    decreases |fs|
  {
    fs == [] || (Enables(s, fs[0]) && ValidFaulty(embed, After(embed, s, fs[0]), fs[1..]))
  }

  // ---------------- the tables stay in step ----------------

  // The same tables with true counters.
  function Counted(s: State): State {
    s.(kbs := map kb | kb in s.kbs :: s.kbs[kb].(docCount := |Catalogue(s.docs, kb)|))
  }

  // Catalogue and index agree, whatever the counters say.
  ghost predicate InStep(s: State) { Inv(Counted(s)) }

  ghost predicate SameButCounts(a: State, b: State) {
    && a == b.(kbs := a.kbs) && a.kbs.Keys == b.kbs.Keys
    && forall kb <- a.kbs :: a.kbs[kb] == b.kbs[kb].(docCount := a.kbs[kb].docCount)
  }

  lemma CountedIsSame(s: State)
    ensures SameButCounts(s, Counted(s))
  {}

  lemma InStepWith(a: State, b: State)
    requires SameButCounts(a, b) && Inv(b)
    ensures InStep(a)
  {
    hide Inv;
    forall kb | kb in b.kbs ensures b.kbs[kb].docCount == |Catalogue(b.docs, kb)| { TablesAgree(b, kb); }
    assert Counted(a).kbs == b.kbs;
  }

  // The plan under which true counters leave as much room as the counters do.
  function Adjusted(s: State, kb: Id, plan: Option<Plan>): Option<Plan>
    requires kb in s.kbs
  {
    var cap := Cap(plan);
    if cap.None? then plan
    else
      var left := if cap.value < s.kbs[kb].docCount then 0 else cap.value - s.kbs[kb].docCount;
      Some(plan.value.(maxDocsPerKb := Some(left + |Catalogue(s.docs, kb)|)))
  }

  lemma SameTarget(s: State, kb: Id, embed: string -> Vector, plan: Option<Plan>)
    requires kb in s.kbs
    ensures TargetOf(Counted(s), kb, embed, Adjusted(s, kb, plan)) == TargetOf(s, kb, embed, plan)
  {}

  lemma IngestInStep(s: State, kb: Id, customer: Id, gens: seq<Generation>, embed: string -> Vector, plan: Option<Plan>)
    requires InStep(s)
    ensures InStep(DoIngest(s, kb, customer, gens, embed, plan).0)
    ensures Owns(s, customer, kb) ==>
              SameButCounts(DoIngest(s, kb, customer, gens, embed, plan).0,
                            DoIngest(Counted(s), kb, customer, gens, embed, Adjusted(s, kb, plan)).0)
  {
    hide Inv, Catalogue;
    if Owns(s, customer, kb) {
      SameTarget(s, kb, embed, plan);
      IngestKeepsInv(Counted(s), kb, customer, gens, embed, Adjusted(s, kb, plan));
      InStepWith(DoIngest(s, kb, customer, gens, embed, plan).0,
                 DoIngest(Counted(s), kb, customer, gens, embed, Adjusted(s, kb, plan)).0);
    }
  }

  lemma NewTables(s: State, t: State)
    requires InStep(s) && t == s.(groups := t.groups, jobs := t.jobs)
    ensures InStep(t)
  {
    hide Inv;
    SameTablesKeepInv(Counted(s), Counted(t));
  }

  lemma PlainInStep(embed: string -> Vector, s: State, e: Event)
    requires InStep(s) && Enabled(s, e)
    ensures InStep(Next(embed, s, e))
  {
    hide Inv, Catalogue, DoIngest;
    match e
    case CreateGroup(id, customer) => NewTables(s, Next(embed, s, e));
    case CreateJob(id, kb, customer, requested) => NewTables(s, Next(embed, s, e));
    case CreateKb(id, customer, group, stack, plan) => CreateInStep(embed, s, e);
    case IngestBatch(kb, customer, gens, plan) => IngestInStep(s, kb, customer, gens, embed, plan);
    case RunJob(id, gens, plan) =>
      if id in s.jobs {
        var job := s.jobs[id];
        IngestInStep(s, job.kb, job.customer, gens, embed, plan);
        NewTables(DoIngest(s, job.kb, job.customer, gens, embed, plan).0, Next(embed, s, e));
      }
    case DeleteKb(kb, customer) => DeleteInStep(embed, s, e);
    case DeleteGroup(group, customer) => DeleteInStep(embed, s, e);
  }

  lemma CreateInStep(embed: string -> Vector, s: State, e: Event)
    requires InStep(s) && Enabled(s, e) && e.CreateKb?
    ensures InStep(Next(embed, s, e))
  {
    hide Inv, Catalogue;
    assert KbsOf(Counted(s).kbs, e.customer) == KbsOf(s.kbs, e.customer);
    StepKeepsInv(embed, Counted(s), e);
    InStepWith(Next(embed, s, e), Next(embed, Counted(s), e));
  }

  lemma DeleteInStep(embed: string -> Vector, s: State, e: Event)
    requires InStep(s) && (e.DeleteKb? || e.DeleteGroup?)
    ensures InStep(Next(embed, s, e))
  {
    hide Inv, Catalogue, DocsOutside, TableOutside;
    if e.DeleteGroup? {
      assert GroupKbs(Counted(s), e.customer, e.group) == GroupKbs(s, e.customer, e.group);
    }
    StepKeepsInv(embed, Counted(s), e);
    InStepWith(Next(embed, s, e), Next(embed, Counted(s), e));
  }

  lemma InterruptInStep(embed: string -> Vector, s: State, f: FaultyEvent)
    requires InStep(s) && Reached(s, f)
    ensures InStep(After(embed, s, f))
  {
    hide Inv, Catalogue;
    var job := s.jobs[f.id];
    var t := DoIngest(s, job.kb, job.customer, f.gens[..f.n], embed, f.plan).0;
    IngestInStep(s, job.kb, job.customer, f.gens[..f.n], embed, f.plan);
    var u := DoIngest(Counted(s), job.kb, job.customer, f.gens[..f.n], embed, Adjusted(s, job.kb, f.plan)).0;
    IngestKeepsInv(Counted(s), job.kb, job.customer, f.gens[..f.n], embed, Adjusted(s, job.kb, f.plan));
    InStepWith(t.(kbs := s.kbs), u);
    NewTables(t.(kbs := s.kbs), After(embed, s, f));
  }

  lemma AfterInStep(embed: string -> Vector, s: State, f: FaultyEvent)
    requires InStep(s) && Enables(s, f)
    ensures InStep(After(embed, s, f))
  {
    hide InStep, InterruptedJob;
    if f.Plain? {
      PlainInStep(embed, s, f.event);
    } else if Reached(s, f) {
      InterruptInStep(embed, s, f);
    } else {
      PlainInStep(embed, s, RunJob(f.id, f.gens, f.plan));
    }
  }

  // ---------------- the counters fall behind ----------------

  // What an interrupted job had stored.
  function Stored(embed: string -> Vector, s: State, f: FaultyEvent): nat
    requires Reached(s, f)
  {
    |Selected(TargetOf(s, s.jobs[f.id].kb, embed, f.plan), Begin(s), f.gens[..f.n])|
  }

  // By how much a counter lags after a step, if it lagged by d before.
  function LagAfter(embed: string -> Vector, s: State, f: FaultyEvent, kb: Id, d: nat): nat {
    if kb !in After(embed, s, f).kbs then 0
    else if Reached(s, f) && s.jobs[f.id].kb == kb then d + Stored(embed, s, f)
    else d
  }

  function Lag(embed: string -> Vector, s: State, fs: seq<FaultyEvent>, kb: Id, d: nat): nat
    decreases |fs|
  {
    if fs == [] then d else Lag(embed, After(embed, s, fs[0]), fs[1..], kb, LagAfter(embed, s, fs[0], kb, d))
  }

  ghost predicate Lags(s: State, kb: Id, d: nat) {
    if kb in s.kbs then s.kbs[kb].docCount + d == |Catalogue(s.docs, kb)| else d == 0 && Catalogue(s.docs, kb) == []
  }

  lemma IngestLags(s: State, k: Id, customer: Id, gens: seq<Generation>, embed: string -> Vector, plan: Option<Plan>, kb: Id, d: nat)
    requires Lags(s, kb, d)
    ensures Lags(DoIngest(s, k, customer, gens, embed, plan).0, kb, d)
  {
    hide Catalogue, IngestAll;
    if Owns(s, customer, k) {
      IngestCatalogue(TargetOf(s, k, embed, plan), Begin(s), gens, kb);
      IngestCounts(TargetOf(s, k, embed, plan), Begin(s), gens);
    }
  }

  lemma PurgeLags(s: State, gone: set<Id>, kb: Id, d: nat)
    requires Lags(s, kb, d)
    ensures Lags(PurgeSet(s, gone), kb, if kb in gone then 0 else d)
  {
    hide Catalogue, DocsOutside, TableOutside;
    DocsOutsideCatalogue(s.docs, gone, kb);
  }

  lemma PurgeKbLags(s: State, k: Id, kb: Id, d: nat)
    requires Lags(s, kb, d) && k in s.kbs
    ensures Lags(PurgeKb(s, k), kb, if kb == k then 0 else d)
  {
    hide Catalogue, DocsOutside, TableOutside;
    DocsOutsideCatalogue(s.docs, {k}, kb);
  }

  lemma PlainLags(embed: string -> Vector, s: State, e: Event, kb: Id, d: nat)
    requires Enabled(s, e) && Lags(s, kb, d)
    ensures Lags(Next(embed, s, e), kb, if kb in Next(embed, s, e).kbs then d else 0)
  {
    hide Catalogue, DoIngest, IngestAll;
    match e
    case IngestBatch(k, customer, gens, plan) =>
      IngestWithinCap(s, k, customer, gens, embed, plan);
      IngestLags(s, k, customer, gens, embed, plan, kb, d);
    case RunJob(id, gens, plan) =>
      if id in s.jobs {
        var job := s.jobs[id];
        IngestWithinCap(s, job.kb, job.customer, gens, embed, plan);
        IngestLags(s, job.kb, job.customer, gens, embed, plan, kb, d);
      }
    case DeleteKb(k, customer) => if Owns(s, customer, k) { PurgeKbLags(s, k, kb, d); }
    case DeleteGroup(group, customer) => PurgeLags(s, GroupKbs(s, customer, group), kb, d);
    case _ =>
  }

  lemma InterruptLags(embed: string -> Vector, s: State, f: FaultyEvent, kb: Id, d: nat)
    requires InStep(s) && Reached(s, f) && Lags(s, kb, d)
    ensures Lags(After(embed, s, f), kb, if s.jobs[f.id].kb == kb then d + Stored(embed, s, f) else d)
  {
    hide Inv, Catalogue, IngestAll;
    var k := s.jobs[f.id].kb;
    var t := TargetOf(s, k, embed, f.plan);
    TablesAgree(Counted(s), k);
    IngestClosedForm(t, Begin(s), f.gens[..f.n]);
    IngestCatalogue(t, Begin(s), f.gens[..f.n], kb);
  }

  lemma AfterLags(embed: string -> Vector, s: State, f: FaultyEvent, kb: Id, d: nat)
    requires InStep(s) && Enables(s, f) && Lags(s, kb, d)
    ensures Lags(After(embed, s, f), kb, LagAfter(embed, s, f, kb, d))
  {
    hide InStep, Stored, Next, Lags;
    if f.Plain? {
      PlainLags(embed, s, f.event, kb, d);
    } else if Reached(s, f) {
      InterruptLags(embed, s, f, kb, d);
      if kb !in s.kbs { NoLagOutside(s, kb, d); }
    } else {
      RunJobIsNext(embed, s, f);
      PlainLags(embed, s, RunJob(f.id, f.gens, f.plan), kb, d);
    }
  }

  lemma NoLagOutside(s: State, kb: Id, d: nat)
    requires Lags(s, kb, d) && kb !in s.kbs
    ensures d == 0
  {}

  lemma RunJobIsNext(embed: string -> Vector, s: State, f: FaultyEvent)
    requires f.Interrupt?
    ensures Next(embed, s, RunJob(f.id, f.gens, f.plan)) == DoRunJob(s, f.id, f.gens, embed, f.plan).0
  {}

  lemma {:induction false} RunInStepAndLags(embed: string -> Vector, s: State, fs: seq<FaultyEvent>, kb: Id, d: nat)
    requires InStep(s) && ValidFaulty(embed, s, fs) && Lags(s, kb, d)
    ensures InStep(RunFaulty(embed, s, fs)) && Lags(RunFaulty(embed, s, fs), kb, Lag(embed, s, fs, kb, d))
    decreases |fs|
  {
    hide InStep, Lags, After, LagAfter, Enables;
    if fs != [] {
      AfterInStep(embed, s, fs[0]);
      AfterLags(embed, s, fs[0], kb, d);
      RunInStepAndLags(embed, After(embed, s, fs[0]), fs[1..], kb, LagAfter(embed, s, fs[0], kb, d));
    }
  }

  lemma StartsInStep(kb: Id)
    ensures InStep(EMPTY) && Lags(EMPTY, kb, 0)
  {}

  // Over every run, interrupted jobs included: catalogue and index of a knowledge base
  // hold the same generations, each once; and its counter lags behind the catalogue by
  // exactly what interrupted jobs had stored in it since it was created.  So nothing
  // that happens later, sending the batch again included, ever makes up for it.
  lemma CounterLags(embed: string -> Vector, fs: seq<FaultyEvent>, kb: Id)
    requires ValidFaulty(embed, EMPTY, fs) && kb in RunFaulty(embed, EMPTY, fs).kbs
    ensures var s := RunFaulty(embed, EMPTY, fs);
            && NoDuplicates(Catalogue(s.docs, kb)) && Docs(IndexOf(s, kb)) == Catalogue(s.docs, kb)
            && s.kbs[kb].docCount == |Catalogue(s.docs, kb)| - Lag(embed, EMPTY, fs, kb, 0)
  {
    hide Inv, Lag, RunFaulty;
    StartsInStep(kb);
    RunInStepAndLags(embed, EMPTY, fs, kb, 0);
    TablesAgree(Counted(RunFaulty(embed, EMPTY, fs)), kb);
  }

  // Once a counter lags, it lags until its knowledge base is deleted.
  lemma {:induction false} LagStays(embed: string -> Vector, s: State, fs: seq<FaultyEvent>, kb: Id, d: nat)
    requires StaysThrough(embed, s, fs, kb)
    ensures d <= Lag(embed, s, fs, kb, d)
    decreases |fs|
  {
    hide After, Stored;
    if fs != [] { LagStays(embed, After(embed, s, fs[0]), fs[1..], kb, LagAfter(embed, s, fs[0], kb, d)); }
  }

  ghost predicate StaysThrough(embed: string -> Vector, s: State, fs: seq<FaultyEvent>, kb: Id)
    decreases |fs|
  {
    kb in s.kbs && (fs == [] || StaysThrough(embed, After(embed, s, fs[0]), fs[1..], kb))
  }

  // ---------------- a concrete run ----------------

  // A job of two generations raises at the second; then the batch is sent again.
  const CREATE: FaultyEvent := Plain(CREATE_ONE)
  const ASK: FaultyEvent := Plain(CreateJob(5, 1, 7, 2))
  const RAISE: FaultyEvent := Interrupt(5, Batch(2, 0), 1, None)
  const AGAIN: FaultyEvent := Plain(IngestBatch(1, 7, Batch(2, 0), None))

  const ASKED: State := EMPTY.(kbs := map[1 := Kb(7, 3, PgVector, 0)], jobs := map[5 := Job(1, 7, 2, Pending, 0, 0)])

  lemma Asked(embed: string -> Vector)
    ensures Enables(EMPTY, CREATE) && Enables(After(embed, EMPTY, CREATE), ASK)
    ensures After(embed, After(embed, EMPTY, CREATE), ASK) == ASKED
  {
    AfterCreate(embed);
  }

  lemma OneStored(embed: string -> Vector)
    ensures Enables(ASKED, RAISE) && Reached(ASKED, RAISE) && Stored(embed, ASKED, RAISE) == 1
  {
    assert Batch(2, 0) == [Generation(Some(0), "x", [])] + Batch(1, 1);
    assert Batch(2, 0)[..1] == Batch(1, 0);
    BatchIsEligible(2, 0, {});
    BatchIsEligible(1, 0, {});
    assert Catalogue(ASKED.docs, 1) == [] && SetOf([]) == {};
  }

  lemma InterruptedCounterLags(embed: string -> Vector)
    ensures ValidFaulty(embed, EMPTY, [CREATE, ASK, RAISE, AGAIN])
    ensures var s := RunFaulty(embed, EMPTY, [CREATE, ASK, RAISE, AGAIN]);
            1 in s.kbs && s.kbs[1].docCount == |Catalogue(s.docs, 1)| - 1
  {
    hide Enables, Stored, DoIngest, Batch;
    Asked(embed);
    OneStored(embed);
    var marked := After(embed, ASKED, RAISE);
    IngestWithinCap(marked, 1, 7, AGAIN.event.gens, embed, None);
    AgainIsPlain(marked);
    var s := After(embed, marked, AGAIN);
    var fs := [CREATE, ASK, RAISE, AGAIN];
    assert fs[1..] == [ASK, RAISE, AGAIN] && fs[1..][1..] == [RAISE, AGAIN];
    assert [RAISE, AGAIN][1..] == [AGAIN] && [AGAIN][1..] == [];
    assert ValidFaulty(embed, s, []);
    assert ValidFaulty(embed, marked, [AGAIN]);
    assert ValidFaulty(embed, ASKED, [RAISE, AGAIN]);
    assert ValidFaulty(embed, After(embed, EMPTY, CREATE), [ASK, RAISE, AGAIN]);
    assert RunFaulty(embed, marked, [AGAIN]) == s;
    assert RunFaulty(embed, ASKED, [RAISE, AGAIN]) == s;
    assert RunFaulty(embed, After(embed, EMPTY, CREATE), [ASK, RAISE, AGAIN]) == s;
    assert RunFaulty(embed, EMPTY, fs) == s;
    assert Lag(embed, marked, [AGAIN], 1, 1) == 1;
    assert Lag(embed, ASKED, [RAISE, AGAIN], 1, 0) == 1;
    assert Lag(embed, After(embed, EMPTY, CREATE), [ASK, RAISE, AGAIN], 1, 0) == 1;
    assert Lag(embed, EMPTY, fs, 1, 0) == 1;
    CounterLags(embed, fs, 1);
  }

  lemma AgainIsPlain(s: State)
    ensures Enables(s, AGAIN)
  {}
}
