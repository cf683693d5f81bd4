/** The per-stack usage figures that billing reads: how many knowledge bases a
    customer has in each stack and how many documents they hold. */
module KbUsage {
  import opened VectorMath
  import opened VectorStore
  import opened Ingest
  import opened KnowledgeBank
  import opened KnowledgeRuns

  datatype Usage = Usage(stack: Stack, kbCount: nat, docCount: int)

  // The stacks in the alphabetical order of their names.
  const STACKS: seq<Stack> := [Bedrock, Chroma, MongoDb, Neo4j, OpenSearch, PgVector, Pinecone, Weaviate]

  function KbsIn(kbs: map<Id, Kb>, customer: Id, stack: Stack): set<Id> {
    set k | k in kbs && kbs[k].customer == customer && kbs[k].stack == stack
  }

  ghost function SumDocs(kbs: map<Id, Kb>, ks: set<Id>): int
    requires ks <= kbs.Keys
  {
    if ks == {} then 0
    else
      var k :| k in ks;
      kbs[k].docCount + SumDocs(kbs, ks - {k})
  }

  // One line for each stack in which the customer has a knowledge base.
  ghost function UsageFrom(kbs: map<Id, Kb>, customer: Id, stacks: seq<Stack>): seq<Usage> {
    if stacks == [] then []
    else
      var ks := KbsIn(kbs, customer, stacks[0]);
      (if ks == {} then [] else [Usage(stacks[0], |ks|, SumDocs(kbs, ks))]) + UsageFrom(kbs, customer, stacks[1..])
  }

  ghost function UsageByCustomer(s: State, customer: Id): seq<Usage> { UsageFrom(s.kbs, customer, STACKS) }

  function DocsIn(docs: seq<Doc>, ks: set<Id>): nat {
    if docs == [] then 0
    else DocsIn(docs[..|docs|-1], ks) + (if docs[|docs|-1].kb in ks then 1 else 0)
  }

  lemma {:induction false} DocsInSplit(docs: seq<Doc>, ks: set<Id>, k: Id)
    requires k in ks
    ensures DocsIn(docs, ks) == DocsIn(docs, ks - {k}) + |Catalogue(docs, k)|
  {
    if docs != [] { DocsInSplit(docs[..|docs|-1], ks, k); }
  }

  lemma {:induction false} DocsInNone(docs: seq<Doc>)
    ensures DocsIn(docs, {}) == 0
  {
    if docs != [] { DocsInNone(docs[..|docs|-1]); }
  }

  // Counters add up to catalogue rows, in whatever order they are added.
  lemma {:induction false} SumIsCatalogue(s: State, ks: set<Id>)
    requires Inv(s) && ks <= s.kbs.Keys
    ensures SumDocs(s.kbs, ks) == DocsIn(s.docs, ks)
    decreases ks
  {
    if ks == {} {
      DocsInNone(s.docs);
    } else {
      var k :| k in ks && SumDocs(s.kbs, ks) == s.kbs[k].docCount + SumDocs(s.kbs, ks - {k});
      SumIsCatalogue(s, ks - {k});
      DocsInSplit(s.docs, ks, k);
      assert Agrees(s, k);
    }
  }

  ghost predicate DistinctStacks(us: seq<Usage>) {
    forall i, j :: 0 <= i < j < |us| ==> us[i].stack != us[j].stack
  }

  lemma {:induction false} UsageStacks(kbs: map<Id, Kb>, customer: Id, stacks: seq<Stack>, i: nat)
    requires i < |UsageFrom(kbs, customer, stacks)|
    ensures UsageFrom(kbs, customer, stacks)[i].stack in stacks
  {
    hide KbsIn, SumDocs;
    if stacks != [] {
      var us, rest := UsageFrom(kbs, customer, stacks), UsageFrom(kbs, customer, stacks[1..]);
      var k := |us| - |rest|;
      if i >= k {
        UsageStacks(kbs, customer, stacks[1..], i - k);
        assert us[i] == rest[i - k];
      }
    }
  }

  lemma {:induction false} UsageDistinct(kbs: map<Id, Kb>, customer: Id, stacks: seq<Stack>, i: nat, j: nat)
    requires forall m, n :: 0 <= m < n < |stacks| ==> stacks[m] != stacks[n]
    requires i < j < |UsageFrom(kbs, customer, stacks)|
    ensures UsageFrom(kbs, customer, stacks)[i].stack != UsageFrom(kbs, customer, stacks)[j].stack
  {
    hide KbsIn, SumDocs;
    if stacks != [] {
      var us, rest := UsageFrom(kbs, customer, stacks), UsageFrom(kbs, customer, stacks[1..]);
      var k := |us| - |rest|;
      UsageStacks(kbs, customer, stacks[1..], j - k);
      assert us[j] == rest[j - k];
      if i >= k {
        UsageDistinct(kbs, customer, stacks[1..], i - k, j - k);
        assert us[i] == rest[i - k];
      }
    }
  }

  lemma {:induction false} UsageFigures(s: State, customer: Id, stacks: seq<Stack>)
    requires Inv(s)
    ensures forall u <- UsageFrom(s.kbs, customer, stacks) ::
              && 0 < u.kbCount == |KbsIn(s.kbs, customer, u.stack)|
              && u.docCount == DocsIn(s.docs, KbsIn(s.kbs, customer, u.stack))
  {
    if stacks != [] {
      SumIsCatalogue(s, KbsIn(s.kbs, customer, stacks[0]));
      UsageFigures(s, customer, stacks[1..]);
    }
  }

  ghost predicate Listed(us: seq<Usage>, stack: Stack) { exists i :: 0 <= i < |us| && us[i].stack == stack }

  lemma {:induction false} UsageCovers(kbs: map<Id, Kb>, customer: Id, stacks: seq<Stack>, i: nat)
    requires i < |stacks| && KbsIn(kbs, customer, stacks[i]) != {}
    ensures Listed(UsageFrom(kbs, customer, stacks), stacks[i])
  {
    var us, rest := UsageFrom(kbs, customer, stacks), UsageFrom(kbs, customer, stacks[1..]);
    if i == 0 {
      assert us[0].stack == stacks[0];
    } else {
      UsageCovers(kbs, customer, stacks[1..], i - 1);
      var j :| 0 <= j < |rest| && rest[j].stack == stacks[i];
      assert us[j + (|us| - |rest|)] == rest[j];
    }
  }

  // ---------------- nothing is missing from the bill ----------------

  function TotalKbs(us: seq<Usage>): nat { if us == [] then 0 else us[0].kbCount + TotalKbs(us[1..]) }

  function TotalDocs(us: seq<Usage>): int { if us == [] then 0 else us[0].docCount + TotalDocs(us[1..]) }

  // The customer's knowledge bases in some of the stacks.
  function KbsAmong(kbs: map<Id, Kb>, customer: Id, stacks: seq<Stack>): set<Id> {
    set k | k in KbsOf(kbs, customer) && kbs[k].stack in stacks
  }

  lemma {:induction false} DocsInUnion(docs: seq<Doc>, a: set<Id>, b: set<Id>)
    requires a !! b
    ensures DocsIn(docs, a + b) == DocsIn(docs, a) + DocsIn(docs, b)
  {
    if docs != [] { DocsInUnion(docs[..|docs|-1], a, b); }
  }

  lemma AmongMore(kbs: map<Id, Kb>, customer: Id, stack: Stack, rest: seq<Stack>)
    requires stack !in rest
    ensures KbsAmong(kbs, customer, [stack] + rest) == KbsIn(kbs, customer, stack) + KbsAmong(kbs, customer, rest)
    ensures KbsIn(kbs, customer, stack) !! KbsAmong(kbs, customer, rest)
  {}

  // One stack more, as the totals see it.
  lemma TotalsMore(kbs: map<Id, Kb>, customer: Id, stack: Stack, rest: seq<Stack>)
    ensures var us, ks := UsageFrom(kbs, customer, rest), KbsIn(kbs, customer, stack);
            && TotalKbs(UsageFrom(kbs, customer, [stack] + rest)) == |ks| + TotalKbs(us)
            && TotalDocs(UsageFrom(kbs, customer, [stack] + rest)) == SumDocs(kbs, ks) + TotalDocs(us)
  {
    var us, ks := UsageFrom(kbs, customer, rest), KbsIn(kbs, customer, stack);
    assert ([stack] + rest)[1..] == rest;
    assert UsageFrom(kbs, customer, [stack] + rest) == if ks == {} then us else [Usage(stack, |ks|, SumDocs(kbs, ks))] + us;
  }

  lemma {:induction false} UsageTotals(s: State, customer: Id, stacks: seq<Stack>)
    requires Inv(s) && forall i, j :: 0 <= i < j < |stacks| ==> stacks[i] != stacks[j]
    ensures TotalKbs(UsageFrom(s.kbs, customer, stacks)) == |KbsAmong(s.kbs, customer, stacks)|
    ensures TotalDocs(UsageFrom(s.kbs, customer, stacks)) == DocsIn(s.docs, KbsAmong(s.kbs, customer, stacks))
  {
    hide Inv, DocsIn, SumDocs;
    if stacks == [] {
      DocsInNone(s.docs);
      assert KbsAmong(s.kbs, customer, stacks) == {};
    } else {
      hide UsageFrom, KbsAmong;
      var ks, rest := KbsIn(s.kbs, customer, stacks[0]), stacks[1..];
      assert stacks == [stacks[0]] + rest;
      UsageTotals(s, customer, rest);
      TotalsMore(s.kbs, customer, stacks[0], rest);
      SumIsCatalogue(s, ks);
      AmongMore(s.kbs, customer, stacks[0], rest);
      DocsInUnion(s.docs, ks, KbsAmong(s.kbs, customer, rest));
    }
  }

  function Position(stack: Stack): nat {
    match stack
    case Bedrock => 0 case Chroma => 1 case MongoDb => 2 case Neo4j => 3
    case OpenSearch => 4 case PgVector => 5 case Pinecone => 6 case Weaviate => 7
  }

  // In every run the usage lines are one for each stack the customer uses, and
  // their figures are the numbers of knowledge bases and of catalogue rows.
  lemma UsageMatchesCatalogue(embed: string -> Vector, es: seq<Event>, customer: Id)
    requires ValidRun(embed, EMPTY, es)
    ensures var s := Run(embed, EMPTY, es);
            var us := UsageByCustomer(s, customer);
            && DistinctStacks(us)
            && (forall u <- us :: 0 < u.kbCount == |KbsIn(s.kbs, customer, u.stack)|
                  && u.docCount == DocsIn(s.docs, KbsIn(s.kbs, customer, u.stack)))
            && (forall stack :: KbsIn(s.kbs, customer, stack) != {} <==> Listed(us, stack))
  {
    hide Inv, UsageFrom, KbsIn, DocsIn;
    RunInv(embed, es);
    var s := Run(embed, EMPTY, es);
    forall i, j | 0 <= i < j < |UsageByCustomer(s, customer)|
      ensures UsageByCustomer(s, customer)[i].stack != UsageByCustomer(s, customer)[j].stack
    {
      UsageDistinct(s.kbs, customer, STACKS, i, j);
    }
    UsageFigures(s, customer, STACKS);
    var us := UsageByCustomer(s, customer);
    forall stack ensures KbsIn(s.kbs, customer, stack) != {} <==> Listed(us, stack) {
      if KbsIn(s.kbs, customer, stack) != {} {
        assert STACKS[Position(stack)] == stack;
        UsageCovers(s.kbs, customer, STACKS, Position(stack));
      }
      if Listed(us, stack) {
        var i :| 0 <= i < |us| && us[i].stack == stack;
        assert us[i] in us;
      }
    }
  }

  // And the lines together account for every knowledge base of the customer and
  // every document in one.
  lemma UsageIsComplete(embed: string -> Vector, es: seq<Event>, customer: Id)
    requires ValidRun(embed, EMPTY, es)
    ensures var s := Run(embed, EMPTY, es);
            && TotalKbs(UsageByCustomer(s, customer)) == CountKbs(s.kbs, customer)
            && TotalDocs(UsageByCustomer(s, customer)) == DocsIn(s.docs, KbsOf(s.kbs, customer))
  {
    hide Inv, UsageFrom, DocsIn;
    RunInv(embed, es);
    var s := Run(embed, EMPTY, es);
    UsageTotals(s, customer, STACKS);
    forall k | k in KbsOf(s.kbs, customer) ensures s.kbs[k].stack in STACKS {
      assert STACKS[Position(s.kbs[k].stack)] == s.kbs[k].stack;
    }
    assert KbsAmong(s.kbs, customer, STACKS) == KbsOf(s.kbs, customer);
  }

  lemma {:induction false} UsageOrder(kbs: map<Id, Kb>, customer: Id, stacks: seq<Stack>, i: nat, j: nat)
    requires forall m, n :: 0 <= m < n < |stacks| ==> Position(stacks[m]) < Position(stacks[n])
    requires i < j < |UsageFrom(kbs, customer, stacks)|
    ensures Position(UsageFrom(kbs, customer, stacks)[i].stack) < Position(UsageFrom(kbs, customer, stacks)[j].stack)
  {
    hide KbsIn, SumDocs, Position;
    var us, rest := UsageFrom(kbs, customer, stacks), UsageFrom(kbs, customer, stacks[1..]);
    var k := |us| - |rest|;
    UsageStacks(kbs, customer, stacks[1..], j - k);
    assert us[j] == rest[j - k];
    if i >= k {
      UsageOrder(kbs, customer, stacks[1..], i - k, j - k);
      assert us[i] == rest[i - k];
    }
  }

  // The lines come in the alphabetical order of the stacks.
  lemma UsageInOrder(s: State, customer: Id, i: nat, j: nat)
    requires i < j < |UsageByCustomer(s, customer)|
    ensures Position(UsageByCustomer(s, customer)[i].stack) < Position(UsageByCustomer(s, customer)[j].stack)
  {
    UsageOrder(s.kbs, customer, STACKS, i, j);
  }
}
