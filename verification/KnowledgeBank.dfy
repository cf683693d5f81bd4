/** The knowledge-bank tables as a state machine: groups, knowledge bases, their
    catalogue rows, the vector indexes and the ingest jobs. */
module KnowledgeBank {
  import opened Options
  import opened VectorMath
  import opened VectorStore
  import opened Ingest

  datatype Kb = Kb(customer: Id, group: Id, stack: Stack, docCount: int)
  datatype JobStatus = Pending | Failed | Finished
  datatype Job = Job(kb: Id, customer: Id, requested: nat, status: JobStatus, ingested: nat, skipped: nat)

  datatype State = State(
    kbs: map<Id, Kb>,
    groups: map<Id, Id>,        // group to its customer
    docs: seq<Doc>,
    table: seq<TableRow>,
    memory: MemoryIndex,
    jobs: map<Id, Job>)

  // A customer's plan as the admin service reports it; None when gating is off.
  datatype Plan = Plan(hasSubscription: bool, stacks: set<Stack>, maxKbs: Option<int>, maxDocsPerKb: Option<int>)

  datatype Reply = Ok | NotFound | Forbidden | BadRequest
    | Ingested(ingested: nat, skipped: nat, docCount: int)
    | Deleted(kbs: nat, docs: nat)

  // ---------------- operations ----------------

  predicate Owns(s: State, customer: Id, kb: Id) { kb in s.kbs && s.kbs[kb].customer == customer }

  function KbsOf(kbs: map<Id, Kb>, customer: Id): set<Id> { set k | k in kbs && kbs[k].customer == customer }

  function CountKbs(kbs: map<Id, Kb>, customer: Id): nat { |KbsOf(kbs, customer)| }

  predicate PlanAllows(s: State, customer: Id, stack: Stack, plan: Option<Plan>) {
    plan.None? ||
    (plan.value.hasSubscription && stack in plan.value.stacks
     && (plan.value.maxKbs.None? || CountKbs(s.kbs, customer) < plan.value.maxKbs.value))
  }

  function DoCreateGroup(s: State, id: Id, customer: Id): (State, Reply) {
    (s.(groups := s.groups[id := customer]), Ok)
  }

  // An unknown stack name arrives as None.
  function DoCreateKb(s: State, id: Id, customer: Id, group: Id, stack: Option<Stack>, plan: Option<Plan>): (State, Reply) {
    if stack.None? then (s, BadRequest)
    else if !PlanAllows(s, customer, stack.value, plan) then (s, Forbidden)
    else (s.(kbs := s.kbs[id := Kb(customer, group, stack.value, 0)]), Ok)
  }

  function Cap(plan: Option<Plan>): Option<int> { if plan.None? then None else plan.value.maxDocsPerKb }

  function TargetOf(s: State, kb: Id, embed: string -> Vector, plan: Option<Plan>): Target
    requires kb in s.kbs
  {
    var cap := Cap(plan);
    Target(kb, s.kbs[kb].stack, embed,
           if cap.None? then None
           else if cap.value < s.kbs[kb].docCount then Some(0)
           else Some(cap.value - s.kbs[kb].docCount))
  }

  function Begin(s: State): Progress { Progress(s.docs, s.table, s.memory, 0, 0) }

  function DoIngest(s: State, kb: Id, customer: Id, gens: seq<Generation>, embed: string -> Vector, plan: Option<Plan>)
    : (State, Reply)
  {
    if !Owns(s, customer, kb) then (s, NotFound)
    else
      var p := IngestAll(TargetOf(s, kb, embed, plan), Begin(s), gens);
      var count := s.kbs[kb].docCount + p.ingested;
      (s.(docs := p.docs, table := p.table, memory := p.memory, kbs := s.kbs[kb := s.kbs[kb].(docCount := count)]),
       Ingested(p.ingested, p.skipped, count))
  }

  function DoCreateJob(s: State, id: Id, kb: Id, customer: Id, requested: nat): (State, Reply) {
    if !Owns(s, customer, kb) then (s, NotFound)
    else (s.(jobs := s.jobs[id := Job(kb, customer, requested, Pending, 0, 0)]), Ok)
  }

  function DoRunJob(s: State, id: Id, gens: seq<Generation>, embed: string -> Vector, plan: Option<Plan>): (State, Reply) {
    if id !in s.jobs then (s, NotFound)
    else
      var job := s.jobs[id];
      var (t, reply) := DoIngest(s, job.kb, job.customer, gens, embed, plan);
      var done := if reply.Ingested?
                  then job.(status := Finished, ingested := reply.ingested, skipped := reply.skipped)
                  else job.(status := Failed);
      (t.(jobs := t.jobs[id := done]), reply)
  }

  function DocsOutside(docs: seq<Doc>, gone: set<Id>): seq<Doc> {
    if docs == [] then []
    else if docs[|docs|-1].kb in gone then DocsOutside(docs[..|docs|-1], gone)
    else DocsOutside(docs[..|docs|-1], gone) + [docs[|docs|-1]]
  }

  function TableOutside(table: seq<TableRow>, gone: set<Id>): seq<TableRow> {
    if table == [] then []
    else if table[|table|-1].kb in gone then TableOutside(table[..|table|-1], gone)
    else TableOutside(table[..|table|-1], gone) + [table[|table|-1]]
  }

  // The vectors of one knowledge base from its own backend, then its rows.
  function PurgeKb(s: State, kb: Id): State
    requires kb in s.kbs
  {
    var stack := s.kbs[kb].stack;
    s.(table := if stack == PgVector then TableOutside(s.table, {kb}) else s.table,
       memory := if stack == PgVector then s.memory else s.memory - {(stack, kb)},
       docs := DocsOutside(s.docs, {kb}),
       kbs := s.kbs - {kb})
  }

  function DoDeleteKb(s: State, kb: Id, customer: Id): (State, Reply) {
    if !Owns(s, customer, kb) then (s, NotFound)
    else (PurgeKb(s, kb), Deleted(1, |Catalogue(s.docs, kb)|))
  }

  // What a deletion of several knowledge bases leaves.
  function PurgeSet(s: State, gone: set<Id>): State {
    s.(kbs := s.kbs - gone,
       docs := DocsOutside(s.docs, gone),
       table := TableOutside(s.table, gone),
       memory := map key | key in s.memory && key.1 !in gone :: s.memory[key])
  }

  function GroupKbs(s: State, customer: Id, group: Id): set<Id> {
    set k | k in s.kbs && s.kbs[k].customer == customer && s.kbs[k].group == group
  }

  function DoDeleteGroup(s: State, group: Id, customer: Id): (State, Reply) {
    if group !in s.groups || s.groups[group] != customer then (s, NotFound)
    else
      var gone := GroupKbs(s, customer, group);
      var t := PurgeSet(s, gone);
      (t.(groups := s.groups - {group}),
       Deleted(|gone|, if |t.docs| <= |s.docs| then |s.docs| - |t.docs| else 0))
  }

  // ---------------- invariant ----------------

  function IndexOf(s: State, kb: Id): seq<Row>
    requires kb in s.kbs
  {
    if s.kbs[kb].stack == PgVector then TableRows(s.table, kb) else MemoryRows(s.memory, s.kbs[kb].stack, kb)
  }

  ghost predicate NoDuplicates(ids: seq<Id>) {
    forall i, j :: 0 <= i < j < |ids| ==> ids[i] != ids[j]
  }

  // The denormalised counter, the catalogue and the index of one knowledge base agree.
  ghost predicate Agrees(s: State, kb: Id)
    requires kb in s.kbs
  {
    && s.kbs[kb].docCount == |Catalogue(s.docs, kb)|
    && NoDuplicates(Catalogue(s.docs, kb))
    && Docs(IndexOf(s, kb)) == Catalogue(s.docs, kb)
  }

  // Every row and every list of vectors belongs to a knowledge base that exists.
  ghost predicate NoOrphans(kbs: map<Id, Kb>, docs: seq<Doc>, table: seq<TableRow>, memory: MemoryIndex) {
    && (forall i :: 0 <= i < |docs| ==> docs[i].kb in kbs)
    && (forall i :: 0 <= i < |table| ==> table[i].kb in kbs && kbs[table[i].kb].stack == PgVector)
    && (forall key <- memory :: key.0 != PgVector && key.1 in kbs && kbs[key.1].stack == key.0)
  }

  ghost predicate Inv(s: State) {
    && NoOrphans(s.kbs, s.docs, s.table, s.memory)
    && forall kb <- s.kbs :: Agrees(s, kb)
  }

  lemma NothingIsOrphaned(s: State)
    requires Inv(s)
    ensures NoOrphans(s.kbs, s.docs, s.table, s.memory)
  {}

  lemma TablesAgree(s: State, kb: Id)
    requires Inv(s) && kb in s.kbs
    ensures Agrees(s, kb)
  {}

  // ---------------- ingest keeps it ----------------

  lemma KbsMayChange(kbs: map<Id, Kb>, kbs': map<Id, Kb>, p: Progress)
    requires NoOrphans(kbs, p.docs, p.table, p.memory) && kbs.Keys == kbs'.Keys
    requires forall k <- kbs :: kbs'[k].stack == kbs[k].stack
    ensures NoOrphans(kbs', p.docs, p.table, p.memory)
  {}

  lemma {:induction false} AppendAllClean(t: Target, p: Progress, gs: seq<Generation>, kbs: map<Id, Kb>)
    requires HaveIds(gs) && NoOrphans(kbs, p.docs, p.table, p.memory) && t.kb in kbs && kbs[t.kb].stack == t.stack
    ensures var q := AppendAll(t, p, gs);
            && NoOrphans(kbs, q.docs, q.table, q.memory)
            && (forall kb :: kb != t.kb ==> TableRows(q.table, kb) == TableRows(p.table, kb))
            && (forall stack, kb :: kb != t.kb ==> MemoryRows(q.memory, stack, kb) == MemoryRows(p.memory, stack, kb))
    decreases |gs|
  {
    if gs != [] {
      var q := Append(t, p, gs[0]);
      var row := TableRow(t.kb, Row(gs[0].id.value, t.embed(Text(gs[0]))));
      forall kb: Id ensures TableRows(p.table + [row], kb) == TableRows(p.table, kb) + (if kb == t.kb then [row.row] else []) {
        TableRowsAppend(p.table, row, kb);
      }
      AppendAllClean(t, q, gs[1..], kbs);
    }
  }

  lemma {:induction false} AppendAllIndex(t: Target, p: Progress, gs: seq<Generation>)
    requires HaveIds(gs)
    ensures IndexRows(t, AppendAll(t, p, gs)) == IndexRows(t, p) + RowsFor(t.embed, gs)
    decreases |gs|
  {
    if gs != [] {
      AppendIndex(t, p, gs[0]);
      AppendAllIndex(t, Append(t, p, gs[0]), gs[1..]);
      RowsForCons(t.embed, gs);
    } else {
      assert RowsFor(t.embed, gs) == [];
    }
  }

  lemma AppendIndex(t: Target, p: Progress, g: Generation)
    requires g.id.Some?
    ensures IndexRows(t, Append(t, p, g)) == IndexRows(t, p) + [Row(g.id.value, t.embed(Text(g)))]
  {
    TableRowsAppend(p.table, TableRow(t.kb, Row(g.id.value, t.embed(Text(g)))), t.kb);
  }

  lemma RowsForCons(embed: string -> Vector, gs: seq<Generation>)
    requires HaveIds(gs) && gs != []
    ensures RowsFor(embed, gs) == [Row(gs[0].id.value, embed(Text(gs[0])))] + RowsFor(embed, gs[1..])
  {}

  function RowsFor(embed: string -> Vector, gs: seq<Generation>): seq<Row>
    requires HaveIds(gs)
  {
    seq(|gs|, i requires 0 <= i < |gs| => Row(gs[i].id.value, embed(Text(gs[i]))))
  }

  lemma {:induction false} EligibleDistinct(gens: seq<Generation>, known: set<Id>)
    requires HaveIds(Eligible(gens, known))
    ensures NoDuplicates(Ids(Eligible(gens, known)))
    ensures forall i :: 0 <= i < |Eligible(gens, known)| ==> Ids(Eligible(gens, known))[i] !in known
    decreases |gens|
  {
    if gens != [] {
      EligibleHaveIds(gens[1..], known);
      if Usable(gens[0]) && gens[0].id.value !in known {
        var more := known + {gens[0].id.value};
        EligibleHaveIds(gens[1..], more);
        EligibleDistinct(gens[1..], more);
        assert Ids(Eligible(gens, known)) == [gens[0].id.value] + Ids(Eligible(gens[1..], more));
      } else {
        EligibleDistinct(gens[1..], known);
      }
    }
  }

  lemma SelectedDistinct(t: Target, p: Progress, gens: seq<Generation>)
    requires NoDuplicates(Catalogue(p.docs, t.kb))
    ensures NoDuplicates(Catalogue(p.docs, t.kb) + Ids(Selected(t, p, gens)))
  {
    var known := SetOf(Catalogue(p.docs, t.kb));
    EligibleHaveIds(gens, known);
    EligibleDistinct(gens, known);
    var gs := Selected(t, p, gens);
    assert forall i :: 0 <= i < |gs| ==> Ids(gs)[i] == Ids(Eligible(gens, known))[i];
  }

  // The tables after an ingest, in closed form.
  lemma IngestTables(s: State, kb: Id, t: Target, gens: seq<Generation>)
    requires NoOrphans(s.kbs, s.docs, s.table, s.memory) && kb in s.kbs && Agrees(s, kb)
    requires t.kb == kb && t.stack == s.kbs[kb].stack
    ensures var gs, p := Selected(t, Begin(s), gens), IngestAll(t, Begin(s), gens);
            && p.ingested == |gs| && p.skipped == |gens| - |gs|
            && NoOrphans(s.kbs, p.docs, p.table, p.memory)
            && IndexRows(t, p) == IndexOf(s, kb) + RowsFor(t.embed, gs)
            && (forall k :: Catalogue(p.docs, k) == Catalogue(s.docs, k) + (if k == kb then Ids(gs) else []))
            && (forall k :: k != kb ==> TableRows(p.table, k) == TableRows(s.table, k))
            && (forall stack, k :: k != kb ==> MemoryRows(p.memory, stack, k) == MemoryRows(s.memory, stack, k))
  {
    var gs := Selected(t, Begin(s), gens);
    IngestClosedForm(t, Begin(s), gens);
    forall k: Id ensures Catalogue(AppendAll(t, Begin(s), gs).docs, k) == Catalogue(s.docs, k) + (if k == kb then Ids(gs) else []) {
      AppendAllCatalogue(t, Begin(s), gs, k);
    }
    AppendAllClean(t, Begin(s), gs, s.kbs);
    AppendAllIndex(t, Begin(s), gs);
  }

  lemma IngestHere(s: State, kb: Id, t: Target, gens: seq<Generation>)
    requires Inv(s) && kb in s.kbs && t.kb == kb && t.stack == s.kbs[kb].stack
    ensures var gs, p := Selected(t, Begin(s), gens), IngestAll(t, Begin(s), gens);
            && p.ingested == |gs| && p.skipped == |gens| - |gs|
            && Catalogue(p.docs, kb) == Catalogue(s.docs, kb) + Ids(gs)
            && IndexRows(t, p) == IndexOf(s, kb) + RowsFor(t.embed, gs)
  {
    assert Agrees(s, kb);
    IngestTables(s, kb, t, gens);
  }

  // The facade's ingest in closed form: which rows it adds to its knowledge base.
  lemma IngestEffect(s: State, kb: Id, customer: Id, gens: seq<Generation>, embed: string -> Vector, plan: Option<Plan>)
    requires Inv(s) && Owns(s, customer, kb)
    ensures var gs := Selected(TargetOf(s, kb, embed, plan), Begin(s), gens);
            var s' := DoIngest(s, kb, customer, gens, embed, plan).0;
            && s'.kbs == s.kbs[kb := s.kbs[kb].(docCount := s.kbs[kb].docCount + |gs|)]
            && Catalogue(s'.docs, kb) == Catalogue(s.docs, kb) + Ids(gs)
            && IndexOf(s', kb) == IndexOf(s, kb) + RowsFor(embed, gs)
    ensures var gs := Selected(TargetOf(s, kb, embed, plan), Begin(s), gens);
            DoIngest(s, kb, customer, gens, embed, plan).1
              == Ingested(|gs|, |gens| - |gs|, s.kbs[kb].docCount + |gs|)
  {
    hide Inv, IngestAll, Catalogue, Eligible, TableRows;
    var t := TargetOf(s, kb, embed, plan);
    IngestHere(s, kb, t, gens);
    var p := IngestAll(t, Begin(s), gens);
    var s' := DoIngest(s, kb, customer, gens, embed, plan).0;
    assert s'.docs == p.docs && s'.table == p.table && s'.memory == p.memory;
    assert IndexOf(s', kb) == IndexRows(t, p);
  }

  // The rows it adds to the catalogue, each with its generation and title.
  lemma IngestAddsDocs(s: State, kb: Id, customer: Id, gens: seq<Generation>, embed: string -> Vector, plan: Option<Plan>)
    requires Inv(s) && Owns(s, customer, kb)
    ensures var gs := Selected(TargetOf(s, kb, embed, plan), Begin(s), gens);
            DoIngest(s, kb, customer, gens, embed, plan).0.docs
              == s.docs + seq(|gs|, i requires 0 <= i < |gs| => Doc(kb, gs[i].id.value, Title(gs[i])))
  {
    hide Inv, Catalogue, IngestAll;
    var t := TargetOf(s, kb, embed, plan);
    TablesAgree(s, kb);
    IngestClosedForm(t, Begin(s), gens);
    AppendAllDocs(t, Begin(s), Selected(t, Begin(s), gens));
  }

  // And that it leaves every other knowledge base alone.
  lemma IngestLeavesOthers(s: State, kb: Id, customer: Id, gens: seq<Generation>, embed: string -> Vector, plan: Option<Plan>)
    requires Inv(s) && Owns(s, customer, kb)
    ensures var s' := DoIngest(s, kb, customer, gens, embed, plan).0;
            && NoOrphans(s'.kbs, s'.docs, s'.table, s'.memory)
            && forall other <- s.kbs :: other != kb ==>
                 Catalogue(s'.docs, other) == Catalogue(s.docs, other) && IndexOf(s', other) == IndexOf(s, other)
  {
    hide Inv, IngestAll, Catalogue, TableRows;
    var t := TargetOf(s, kb, embed, plan);
    NothingIsOrphaned(s);
    TablesAgree(s, kb);
    IngestTables(s, kb, t, gens);
    var p := IngestAll(t, Begin(s), gens);
    var s' := DoIngest(s, kb, customer, gens, embed, plan).0;
    KbsMayChange(s.kbs, s'.kbs, p);
    forall other | other in s.kbs && other != kb
      ensures Catalogue(s'.docs, other) == Catalogue(s.docs, other) && IndexOf(s', other) == IndexOf(s, other)
    {
      assert Catalogue(p.docs, other) == Catalogue(s.docs, other) + [];
      assert TableRows(p.table, other) == TableRows(s.table, other);
      assert MemoryRows(p.memory, s.kbs[other].stack, other) == MemoryRows(s.memory, s.kbs[other].stack, other);
    }
  }

  // The knowledge base that ingests agrees afterwards.
  lemma IngestAgreesHere(s: State, kb: Id, customer: Id, gens: seq<Generation>, embed: string -> Vector, plan: Option<Plan>)
    requires Inv(s) && Owns(s, customer, kb)
    ensures var s' := DoIngest(s, kb, customer, gens, embed, plan).0; kb in s'.kbs && Agrees(s', kb)
  {
    hide Inv, DoIngest, IngestAll, Catalogue, IndexOf, Eligible;
    IngestEffect(s, kb, customer, gens, embed, plan);
    var t := TargetOf(s, kb, embed, plan);
    var gs := Selected(t, Begin(s), gens);
    TablesAgree(s, kb);
    SelectedDistinct(t, Begin(s), gens);
    DocsAppend(IndexOf(s, kb), RowsFor(embed, gs));
    assert Docs(RowsFor(embed, gs)) == Ids(gs);
  }

  lemma IngestAgreesThere(s: State, kb: Id, customer: Id, gens: seq<Generation>, embed: string -> Vector, plan: Option<Plan>, other: Id)
    requires Inv(s) && Owns(s, customer, kb) && other in s.kbs && other != kb
    ensures var s' := DoIngest(s, kb, customer, gens, embed, plan).0; other in s'.kbs && Agrees(s', other)
  {
    hide Inv, DoIngest, IngestAll, Catalogue, IndexOf;
    IngestEffect(s, kb, customer, gens, embed, plan);
    IngestLeavesOthers(s, kb, customer, gens, embed, plan);
    TablesAgree(s, other);
  }

  lemma IngestKeepsInv(s: State, kb: Id, customer: Id, gens: seq<Generation>, embed: string -> Vector, plan: Option<Plan>)
    requires Inv(s)
    ensures Inv(DoIngest(s, kb, customer, gens, embed, plan).0)
  {
    hide Agrees, IngestAll, Catalogue;
    if Owns(s, customer, kb) {
      var s' := DoIngest(s, kb, customer, gens, embed, plan).0;
      IngestLeavesOthers(s, kb, customer, gens, embed, plan);
      forall other | other in s'.kbs ensures Agrees(s', other) {
        if other == kb {
          IngestAgreesHere(s, kb, customer, gens, embed, plan);
        } else {
          IngestAgreesThere(s, kb, customer, gens, embed, plan, other);
        }
      }
    }
  }

  // ---------------- deletion keeps it ----------------

  lemma {:induction false} DocsOutsideCatalogue(docs: seq<Doc>, gone: set<Id>, kb: Id)
    ensures Catalogue(DocsOutside(docs, gone), kb) == if kb in gone then [] else Catalogue(docs, kb)
  {
    if docs != [] {
      var front, last := docs[..|docs|-1], docs[|docs|-1];
      DocsOutsideCatalogue(front, gone, kb);
      CatalogueAppend(DocsOutside(front, gone), last, kb);
      if last.kb in gone && last.kb != kb { assert Catalogue(docs, kb) == Catalogue(front, kb); }
    }
  }

  lemma {:induction false} DocsOutsideMembers(docs: seq<Doc>, gone: set<Id>)
    ensures |DocsOutside(docs, gone)| <= |docs|
    ensures forall d <- DocsOutside(docs, gone) :: d in docs && d.kb !in gone
  {
    if docs != [] { DocsOutsideMembers(docs[..|docs|-1], gone); }
  }

  lemma {:induction false} TableOutsideRows(table: seq<TableRow>, gone: set<Id>, kb: Id)
    ensures TableRows(TableOutside(table, gone), kb) == if kb in gone then [] else TableRows(table, kb)
  {
    if table != [] {
      var front, last := table[..|table|-1], table[|table|-1];
      TableOutsideRows(front, gone, kb);
      TableRowsAppend(TableOutside(front, gone), last, kb);
      if last.kb in gone && last.kb != kb { assert TableRows(table, kb) == TableRows(front, kb); }
    }
  }

  lemma {:induction false} TableOutsideMembers(table: seq<TableRow>, gone: set<Id>)
    ensures forall r <- TableOutside(table, gone) :: r in table && r.kb !in gone
  {
    if table != [] { TableOutsideMembers(table[..|table|-1], gone); }
  }

  lemma PurgeNoOrphans(s: State, gone: set<Id>)
    requires NoOrphans(s.kbs, s.docs, s.table, s.memory)
    ensures var t := PurgeSet(s, gone); NoOrphans(t.kbs, t.docs, t.table, t.memory)
  {
    var t := PurgeSet(s, gone);
    DocsOutsideMembers(s.docs, gone);
    TableOutsideMembers(s.table, gone);
    forall i | 0 <= i < |t.docs| ensures t.docs[i].kb in t.kbs { assert t.docs[i] in s.docs; }
    forall i | 0 <= i < |t.table| ensures t.table[i].kb in t.kbs && t.kbs[t.table[i].kb].stack == PgVector {
      assert t.table[i] in s.table;
    }
  }

  lemma PurgeShares(s: State, gone: set<Id>, kb: Id)
    ensures var t := PurgeSet(s, gone);
            && Catalogue(t.docs, kb) == (if kb in gone then [] else Catalogue(s.docs, kb))
            && TableRows(t.table, kb) == (if kb in gone then [] else TableRows(s.table, kb))
            && (kb in t.kbs ==> t.kbs[kb] == s.kbs[kb] && IndexOf(t, kb) == IndexOf(s, kb))
  {
    DocsOutsideCatalogue(s.docs, gone, kb);
    TableOutsideRows(s.table, gone, kb);
  }

  // Deletion removes precisely the share of the deleted knowledge bases.
  lemma PurgeIsPrecise(s: State, gone: set<Id>)
    requires Inv(s)
    ensures var t := PurgeSet(s, gone);
            && Inv(t) && t.kbs.Keys == s.kbs.Keys - gone
            && (forall kb <- t.kbs :: t.kbs[kb] == s.kbs[kb]
                  && Catalogue(t.docs, kb) == Catalogue(s.docs, kb) && IndexOf(t, kb) == IndexOf(s, kb))
            && (forall kb <- gone :: Catalogue(t.docs, kb) == [] && TableRows(t.table, kb) == []
                  && forall stack :: (stack, kb) !in t.memory)
  {
    var t := PurgeSet(s, gone);
    PurgeNoOrphans(s, gone);
    forall kb | kb in gone ensures Catalogue(t.docs, kb) == [] && TableRows(t.table, kb) == [] {
      PurgeShares(s, gone, kb);
    }
    forall kb | kb in t.kbs
      ensures t.kbs[kb] == s.kbs[kb] && Catalogue(t.docs, kb) == Catalogue(s.docs, kb) && IndexOf(t, kb) == IndexOf(s, kb)
      ensures Agrees(t, kb)
    {
      PurgeShares(s, gone, kb);
      assert Agrees(s, kb);
    }
  }

  lemma {:induction false} TableOutsideNothing(table: seq<TableRow>, gone: set<Id>)
    requires forall i :: 0 <= i < |table| ==> table[i].kb !in gone
    ensures TableOutside(table, gone) == table
  {
    if table != [] {
      TableOutsideNothing(table[..|table|-1], gone);
      assert table == table[..|table|-1] + [table[|table|-1]];
    }
  }

  lemma PurgeOneTable(s: State, kb: Id)
    requires NoOrphans(s.kbs, s.docs, s.table, s.memory) && kb in s.kbs
    ensures PurgeKb(s, kb).table == PurgeSet(s, {kb}).table
  {
    if s.kbs[kb].stack != PgVector { TableOutsideNothing(s.table, {kb}); }
  }

  lemma PurgeOneMemory(s: State, kb: Id)
    requires NoOrphans(s.kbs, s.docs, s.table, s.memory) && kb in s.kbs
    ensures PurgeKb(s, kb).memory == PurgeSet(s, {kb}).memory
  {
    hide DocsOutside, TableOutside;
    var stack := s.kbs[kb].stack;
    forall key | key in s.memory ensures key.1 == kb <==> stack != PgVector && key == (stack, kb) {}
  }

  // Purging one knowledge base from its own backend leaves nothing of it anywhere.
  lemma PurgeOne(s: State, kb: Id)
    requires Inv(s) && kb in s.kbs
    ensures PurgeKb(s, kb) == PurgeSet(s, {kb})
    ensures |Catalogue(s.docs, kb)| == |s.docs| - |PurgeKb(s, kb).docs|
  {
    hide Inv;
    NothingIsOrphaned(s);
    PurgeOneTable(s, kb);
    PurgeOneMemory(s, kb);
    RemovedDocs(s.docs, kb);
  }

  lemma {:induction false} RemovedDocs(docs: seq<Doc>, kb: Id)
    ensures |docs| == |DocsOutside(docs, {kb})| + |Catalogue(docs, kb)|
  {
    if docs != [] { RemovedDocs(docs[..|docs|-1], kb); }
  }

  lemma {:induction false} DocsOutsideTwice(docs: seq<Doc>, a: set<Id>, b: set<Id>)
    ensures DocsOutside(DocsOutside(docs, a), b) == DocsOutside(docs, a + b)
  {
    if docs != [] {
      var front, last := docs[..|docs|-1], docs[|docs|-1];
      DocsOutsideTwice(front, a, b);
      assert (DocsOutside(front, a) + [last])[..|DocsOutside(front, a)|] == DocsOutside(front, a);
    }
  }

  lemma {:induction false} TableOutsideTwice(table: seq<TableRow>, a: set<Id>, b: set<Id>)
    ensures TableOutside(TableOutside(table, a), b) == TableOutside(table, a + b)
  {
    if table != [] {
      var front, last := table[..|table|-1], table[|table|-1];
      TableOutsideTwice(front, a, b);
      assert (TableOutside(front, a) + [last])[..|TableOutside(front, a)|] == TableOutside(front, a);
    }
  }

  lemma PurgeTwice(s: State, a: set<Id>, b: set<Id>)
    ensures PurgeSet(PurgeSet(s, a), b) == PurgeSet(s, a + b)
  {
    DocsOutsideTwice(s.docs, a, b);
    TableOutsideTwice(s.table, a, b);
    assert PurgeSet(PurgeSet(s, a), b).kbs == PurgeSet(s, a + b).kbs;
    assert PurgeSet(PurgeSet(s, a), b).memory == PurgeSet(s, a + b).memory;
  }

  lemma {:induction false} PurgeNothing(s: State)
    ensures PurgeSet(s, {}) == s
  {
    DocsOutsideNothing(s.docs);
    TableOutsideNothing(s.table, {});
    assert s.kbs - {} == s.kbs;
    assert PurgeSet(s, {}).memory == s.memory;
  }

  lemma {:induction false} DocsOutsideNothing(docs: seq<Doc>)
    ensures DocsOutside(docs, {}) == docs
  {
    if docs != [] {
      DocsOutsideNothing(docs[..|docs|-1]);
      assert docs == docs[..|docs|-1] + [docs[|docs|-1]];
    }
  }
}
