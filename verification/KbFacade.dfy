/** The knowledge-base facade over its tables, with the loops of the code; each
    method is proved to be one step of the state machine. */
module KbFacades {
  import opened Options
  import opened VectorMath
  import opened VectorStore
  import opened Ingest
  import opened KnowledgeBank
  import opened KnowledgeRuns

  class KbFacade {
    const embed: string -> Vector
    const root: real -> real
    var kbs: map<Id, Kb>
    var groups: map<Id, Id>
    var docs: seq<Doc>
    var table: seq<TableRow>
    var memory: MemoryIndex
    var jobs: map<Id, Job>

    ghost function Abs(): State
      reads this
    {
      State(kbs, groups, docs, table, memory, jobs)
    }

    ghost predicate Valid()
      reads this
    {
      Inv(Abs())
    }

    constructor (embed: string -> Vector, root: real -> real)
      ensures Valid() && Abs() == EMPTY && this.embed == embed && this.root == root
    {
      this.embed, this.root := embed, root;
      kbs, groups, docs, table, memory, jobs := map[], map[], [], [], map[], map[];
    }

    method CreateGroup(id: Id, customer: Id) returns (reply: Reply)
      requires Valid() && id !in groups
      modifies this
      ensures Valid() && (Abs(), reply) == Step(embed, old(Abs()), KnowledgeRuns.CreateGroup(id, customer))
    {
      hide Inv;
      StepKeepsInv(embed, Abs(), KnowledgeRuns.CreateGroup(id, customer));
      groups := groups[id := customer];
      reply := Ok;
    }

    method CreateKb(id: Id, customer: Id, group: Id, stack: Option<Stack>, plan: Option<Plan>) returns (reply: Reply)
      requires Valid() && id !in kbs
      modifies this
      ensures Valid() && (Abs(), reply) == Step(embed, old(Abs()), KnowledgeRuns.CreateKb(id, customer, group, stack, plan))
    {
      hide Inv;
      ghost var e := KnowledgeRuns.CreateKb(id, customer, group, stack, plan);
      StepKeepsInv(embed, Abs(), e);
      if stack.None? {
        return BadRequest;
      }
      if plan.Some? {
        if !plan.value.hasSubscription || stack.value !in plan.value.stacks {
          return Forbidden;
        }
        if plan.value.maxKbs.Some? {
          if CountKbs(kbs, customer) >= plan.value.maxKbs.value {
            return Forbidden;
          }
        }
      }
      kbs := kbs[id := Kb(customer, group, stack.value, 0)];
      reply := Ok;
      assert Abs() == Next(embed, old(Abs()), e);
    }

    // The backend's upsert: delete the document's old row, add the new one.
    method StoreVector(kb: Id, stack: Stack, doc: Id, vector: Vector)
      modifies this`table, this`memory
      ensures table == if stack == PgVector then TableWithout(old(table), kb, doc) + [TableRow(kb, Row(doc, vector))] else old(table)
      ensures memory == if stack == PgVector then old(memory)
                        else old(memory)[(stack, kb) := Upsert(MemoryRows(old(memory), stack, kb), doc, vector)]
    {
      if stack == PgVector {
        table := TableWithout(table, kb, doc) + [TableRow(kb, Row(doc, vector))];
      } else {
        memory := memory[(stack, kb) := Upsert(MemoryRows(memory, stack, kb), doc, vector)];
      }
    }

    // One turn of the ingest loop.
    method IngestGeneration(ghost t: Target, kb: Id, stack: Stack, remaining: Option<nat>, g: Generation, ingested: nat, skipped: nat)
      returns (ingested': nat, skipped': nat)
      requires t == Target(kb, stack, embed, remaining)
      modifies this`docs, this`table, this`memory
      ensures Progress(docs, table, memory, ingested', skipped')
           == IngestOne(t, Progress(old(docs), old(table), old(memory), ingested, skipped), g)
    {
      ingested', skipped' := ingested, skipped;
      if g.id.None? || g.id.value in Catalogue(docs, kb) {
        skipped' := skipped + 1;
        return;
      }
      if remaining.Some? && ingested >= remaining.value {
        skipped' := skipped + 1;
        return;
      }
      var text := Text(g);
      if text == "" {
        skipped' := skipped + 1;
        return;
      }
      StoreVector(kb, stack, g.id.value, embed(text));
      docs := docs + [Doc(kb, g.id.value, Title(g))];
      ingested' := ingested + 1;
    }

    // The loop over the resolved generations.
    method IngestLoop(ghost t: Target, kb: Id, stack: Stack, remaining: Option<nat>, gens: seq<Generation>)
      returns (ingested: nat, skipped: nat)
      requires t == Target(kb, stack, embed, remaining)
      modifies this`docs, this`table, this`memory
      ensures Progress(docs, table, memory, ingested, skipped)
           == IngestAll(t, Progress(old(docs), old(table), old(memory), 0, 0), gens)
    {
      ingested, skipped := 0, 0;
      var i := 0;
      while i < |gens|
        invariant 0 <= i <= |gens|
        invariant IngestAll(t, Progress(docs, table, memory, ingested, skipped), gens[i..])
               == IngestAll(t, Progress(old(docs), old(table), old(memory), 0, 0), gens)
      {
        assert gens[i..][1..] == gens[i + 1..];
        ingested, skipped := IngestGeneration(t, kb, stack, remaining, gens[i], ingested, skipped);
        i := i + 1;
      }
    }

    // The room that the plan's cap leaves.
    method Remaining(row: Kb, plan: Option<Plan>) returns (remaining: Option<nat>)
      ensures remaining.None? <==> Cap(plan).None?
      ensures remaining.Some? ==>
                remaining.value == if Cap(plan).value > row.docCount then Cap(plan).value - row.docCount else 0
    {
      var cap := Cap(plan);
      remaining := None;
      if cap.Some? {
        remaining := Some(if cap.value > row.docCount then cap.value - row.docCount else 0);
      }
    }

    method IngestBatch(kb: Id, customer: Id, gens: seq<Generation>, plan: Option<Plan>) returns (reply: Reply)
      requires Valid()
      modifies this
      ensures Valid() && (Abs(), reply) == Step(embed, old(Abs()), KnowledgeRuns.IngestBatch(kb, customer, gens, plan))
    {
      hide Inv;
      ghost var after := DoIngest(Abs(), kb, customer, gens, embed, plan);
      IngestKeepsInv(Abs(), kb, customer, gens, embed, plan);
      if kb !in kbs || kbs[kb].customer != customer {
        return NotFound;
      }
      var row := kbs[kb];
      var remaining := Remaining(row, plan);
      var ingested, skipped := IngestLoop(TargetOf(Abs(), kb, embed, plan), kb, row.stack, remaining, gens);
      kbs := kbs[kb := row.(docCount := row.docCount + ingested)];
      reply := Ingested(ingested, skipped, row.docCount + ingested);
      assert (Abs(), reply) == after;
    }

    // Hits before the scores are rounded for display.
    method Search(kb: Id, customer: Id, query: string, topK: nat) returns (hits: Option<seq<Hit>>)
      ensures hits.Some? <==> Owns(Abs(), customer, kb)
      ensures hits.Some? ==> hits.value == Query(root, IndexOf(Abs(), kb), embed(query), topK)
    {
      if kb !in kbs || kbs[kb].customer != customer {
        return None;
      }
      var stack := kbs[kb].stack;
      var rows := if stack == PgVector then TableRows(table, kb) else MemoryRows(memory, stack, kb);
      hits := Some(Query(root, rows, embed(query), topK));
    }

    method CreateJob(id: Id, kb: Id, customer: Id, requested: nat) returns (reply: Reply)
      requires Valid() && id !in jobs
      modifies this
      ensures Valid() && (Abs(), reply) == Step(embed, old(Abs()), KnowledgeRuns.CreateJob(id, kb, customer, requested))
    {
      hide Inv;
      StepKeepsInv(embed, Abs(), KnowledgeRuns.CreateJob(id, kb, customer, requested));
      if kb !in kbs || kbs[kb].customer != customer {
        return NotFound;
      }
      jobs := jobs[id := Job(kb, customer, requested, Pending, 0, 0)];
      reply := Ok;
    }

    method RunJob(id: Id, gens: seq<Generation>, plan: Option<Plan>) returns (reply: Reply)
      requires Valid()
      modifies this
      ensures Valid() && (Abs(), reply) == Step(embed, old(Abs()), KnowledgeRuns.RunJob(id, gens, plan))
    {
      hide Inv;
      StepKeepsInv(embed, Abs(), KnowledgeRuns.RunJob(id, gens, plan));
      if id !in jobs {
        return NotFound;
      }
      var job := jobs[id];
      reply := IngestBatch(job.kb, job.customer, gens, plan);
      if reply.Ingested? {
        jobs := jobs[id := job.(status := Finished, ingested := reply.ingested, skipped := reply.skipped)];
      } else {
        jobs := jobs[id := job.(status := Failed)];
      }
    }

    // The same job when turn n of its loop raises: the turns before are committed.
    method RunInterruptedJob(id: Id, gens: seq<Generation>, n: nat, plan: Option<Plan>)
      requires id in jobs && Owns(Abs(), jobs[id].customer, jobs[id].kb) && n <= |gens|
      modifies this
      ensures Abs() == InterruptedJob(old(Abs()), id, gens, n, embed, plan)
    {
      hide Inv, IngestAll;
      var job := jobs[id];
      var row := kbs[job.kb];
      var remaining := Remaining(row, plan);
      var ingested, skipped := IngestLoop(TargetOf(Abs(), job.kb, embed, plan), job.kb, row.stack, remaining, gens[..n]);
      jobs := jobs[id := job.(status := Failed)];
    }

    method Purge(kb: Id) returns (removed: nat)
      requires Valid() && kb in kbs
      modifies this`kbs, this`docs, this`table, this`memory
      ensures Valid() && Abs() == PurgeSet(old(Abs()), {kb})
      ensures removed == |old(docs)| - |docs|
    {
      hide Inv;
      PurgeOne(Abs(), kb);
      PurgeIsPrecise(Abs(), {kb});
      var stack := kbs[kb].stack;
      if stack == PgVector {
        table := TableOutside(table, {kb});
      } else {
        memory := memory - {(stack, kb)};
      }
      removed := |Catalogue(docs, kb)|;
      docs := DocsOutside(docs, {kb});
      kbs := kbs - {kb};
    }

    method DeleteKb(kb: Id, customer: Id) returns (reply: Reply)
      requires Valid()
      modifies this
      ensures Valid() && (Abs(), reply) == Step(embed, old(Abs()), KnowledgeRuns.DeleteKb(kb, customer))
    {
      hide Inv;
      if kb !in kbs || kbs[kb].customer != customer {
        return NotFound;
      }
      PurgeOne(Abs(), kb);
      var removed := Purge(kb);
      reply := Deleted(1, removed);
    }

    method DeleteGroup(group: Id, customer: Id) returns (reply: Reply)
      requires Valid()
      modifies this
      ensures Valid() && (Abs(), reply) == Step(embed, old(Abs()), KnowledgeRuns.DeleteGroup(group, customer))
    {
      hide Inv;
      StepKeepsInv(embed, Abs(), KnowledgeRuns.DeleteGroup(group, customer));
      if group !in groups || groups[group] != customer {
        return NotFound;
      }
      ghost var start := Abs();
      var all := set k | k in kbs && kbs[k].customer == customer && kbs[k].group == group;
      var todo := all;
      var removed: nat := 0;
      PurgeNothing(start);
      assert all - todo == {};
      while todo != {}
        invariant todo <= all && Valid()
        invariant Abs() == PurgeSet(start, all - todo)
        invariant removed == |start.docs| - |docs|
        decreases todo
      {
        var kb :| kb in todo;
        PurgeTwice(start, all - todo, {kb});
        assert all - todo + {kb} == all - (todo - {kb});
        var n := Purge(kb);
        removed := removed + n;
        todo := todo - {kb};
      }
      assert all - todo == GroupKbs(start, customer, group);
      groups := groups - {group};
      reply := Deleted(|all|, removed);
    }
  }
}
