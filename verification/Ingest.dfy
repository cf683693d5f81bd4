/** Ingesting a batch of generations into one knowledge base: the quota-limited,
    deduplicating loop over the catalogue rows and the vector index, and the
    closed form it equals. */
module Ingest {
  import opened Options
  import opened VectorMath
  import opened VectorStore

  datatype Stack = Bedrock | OpenSearch | PgVector | MongoDb | Weaviate | Pinecone | Chroma | Neo4j

  datatype Prompt = Prompt(output: string, provider: string)
  datatype Generation = Generation(id: Option<Id>, instruction: string, prompts: seq<Prompt>)

  datatype Doc = Doc(kb: Id, generation: Id, title: string)
  datatype TableRow = TableRow(kb: Id, row: Row)
  type MemoryIndex = map<(Stack, Id), seq<Row>>

  // ---------------- what is embedded ----------------

  function Join(parts: seq<string>, separator: string): string {
    if parts == [] then ""
    else if |parts| == 1 then parts[0]
    else parts[0] + separator + Join(parts[1..], separator)
  }

  function Filled(parts: seq<string>): seq<string> {
    if parts == [] then [] else (if parts[0] != "" then [parts[0]] else []) + Filled(parts[1..])
  }

  function ProvidersOf(g: Generation): string {
    Join(seq(|g.prompts|, i requires 0 <= i < |g.prompts| => g.prompts[i].provider), ",")
  }

  function PromptOf(g: Generation): string { if g.prompts == [] then "" else g.prompts[0].output }

  function Text(g: Generation): string {
    var providers := ProvidersOf(g);
    Join(Filled([g.instruction, PromptOf(g)] + (if providers != "" then ["providers: " + providers] else [])), "\n\n")
  }

  function Title(g: Generation): string {
    var t := if PromptOf(g) != "" then PromptOf(g) else g.instruction;
    if |t| <= 200 then t else t[..200]
  }

  lemma {:induction false} JoinEmpty(parts: seq<string>, separator: string)
    requires separator != ""
    ensures Join(parts, separator) == "" <==> parts == [] || parts == [""]
  {}

  // What ingest skips as empty: no instruction, no first output, and at most one
  // prompt, without a provider.  Two prompts already leave a comma in the text.
  lemma TextIsEmptyIff(g: Generation)
    ensures Text(g) == "" <==>
              g.instruction == "" && PromptOf(g) == "" && (g.prompts == [] || (|g.prompts| == 1 && g.prompts[0].provider == ""))
  {
    var names := seq(|g.prompts|, i requires 0 <= i < |g.prompts| => g.prompts[i].provider);
    JoinEmpty(names, ",");
    assert ProvidersOf(g) == "" <==> g.prompts == [] || (|g.prompts| == 1 && g.prompts[0].provider == "");
    var parts := [g.instruction, PromptOf(g)] + (if ProvidersOf(g) != "" then ["providers: " + ProvidersOf(g)] else []);
    JoinEmpty(Filled(parts), "\n\n");
    FilledParts(parts);
    if ProvidersOf(g) != "" { assert parts[2] != ""; }
    if Filled(parts) != [] { assert Filled(parts)[0] != ""; }
    assert parts[0] == g.instruction && parts[1] == PromptOf(g);
  }

  lemma {:induction false} FilledParts(parts: seq<string>)
    ensures Filled(parts) == [] <==> forall i :: 0 <= i < |parts| ==> parts[i] == ""
    ensures forall i :: 0 <= i < |Filled(parts)| ==> Filled(parts)[i] != ""
  {
    if parts != [] { FilledParts(parts[1..]); }
  }

  // Two texts with a blank line between them, if both have something to say.
  function Glue(a: string, b: string): string {
    if a == "" then b else if b == "" then a else a + "\n\n" + b
  }

  // The names of the providers, with a comma between any two.
  function Names(prompts: seq<Prompt>): string {
    if prompts == [] then ""
    else if |prompts| == 1 then prompts[0].provider
    else prompts[0].provider + "," + Names(prompts[1..])
  }

  lemma {:induction false} ProvidersAreNames(g: Generation)
    ensures ProvidersOf(g) == Names(g.prompts)
    decreases |g.prompts|
  {
    if |g.prompts| > 1 {
      var rest := g.(prompts := g.prompts[1..]);
      ProvidersAreNames(rest);
      var all := seq(|g.prompts|, i requires 0 <= i < |g.prompts| => g.prompts[i].provider);
      assert all[1..] == seq(|rest.prompts|, i requires 0 <= i < |rest.prompts| => rest.prompts[i].provider);
    }
  }

  // What is embedded: the instruction, the first prompt's output and the providers, as
  // far as there are any, in this order.
  lemma TextIs(g: Generation)
    ensures var prompt := if g.prompts == [] then "" else g.prompts[0].output;
            var names := Names(g.prompts);
            Text(g) == Glue(Glue(g.instruction, prompt), if names == "" then "" else "providers: " + names)
  {
    ProvidersAreNames(g);
    var names := Names(g.prompts);
    var two, three := [g.instruction, PromptOf(g)], [g.instruction, PromptOf(g), "providers: " + names];
    assert two[1..] == [PromptOf(g)] && two[1..][1..] == [];
    assert three[1..] == [PromptOf(g), "providers: " + names] && three[1..][1..] == ["providers: " + names];
    assert ["providers: " + names][1..] == [];
    assert two + [] == two && two + ["providers: " + names] == three;
    JoinOfThree(g.instruction, PromptOf(g), "providers: " + names);
    JoinOfTwo(g.instruction, PromptOf(g));
  }

  lemma JoinOfTwo(a: string, b: string)
    ensures Join(Filled([a, b]), "\n\n") == Glue(a, b)
  {
    assert [a, b][1..] == [b] && [b][1..] == [];
    assert Filled([b]) == if b == "" then [] else [b];
    if a != "" && b != "" { assert [a, b] == [a] + [b]; }
  }

  lemma JoinPair(a: string, b: string)
    ensures Join([a, b], "\n\n") == a + "\n\n" + b
  {
    assert [a, b][1..] == [b];
  }

  lemma JoinOfThree(a: string, b: string, c: string)
    requires c != ""
    ensures Join(Filled([a, b, c]), "\n\n") == Glue(Glue(a, b), c)
  {
    assert [a, b, c][1..] == [b, c] && [b, c][1..] == [c] && [c][1..] == [];
    assert Filled([c]) == [c];
    assert Filled([b, c]) == if b == "" then [c] else [b] + [c];
    assert Filled([a, b, c]) == (if a == "" then [] else [a]) + Filled([b, c]);
    JoinPair(b, c);
    if a != "" && b != "" {
      assert [a] + ([b] + [c]) == [a, b, c];
      assert Join([a, b, c], "\n\n") == a + "\n\n" + Join([b, c], "\n\n");
      assert a + "\n\n" + (b + "\n\n" + c) == (a + "\n\n" + b) + "\n\n" + c;
    } else if a != "" {
      assert [a] + [c] == [a, c] && [a, c][1..] == [c];
    } else if b != "" {
      assert [b] + [c] == [b, c];
    }
  }

  // The title is how the first prompt's output begins, or the instruction where there is
  // none: its first two hundred characters.
  lemma TitleIs(g: Generation)
    ensures var t := if g.prompts != [] && g.prompts[0].output != "" then g.prompts[0].output else g.instruction;
            Title(g) <= t && |Title(g)| == (if |t| < 200 then |t| else 200)
  {}

  // ---------------- catalogue and index ----------------

  // The generations catalogued in a knowledge base, oldest first.
  function Catalogue(docs: seq<Doc>, kb: Id): seq<Id> {
    if docs == [] then []
    else Catalogue(docs[..|docs|-1], kb) + (if docs[|docs|-1].kb == kb then [docs[|docs|-1].generation] else [])
  }

  lemma {:induction false} CatalogueMembers(docs: seq<Doc>, kb: Id, x: Id)
    ensures x in Catalogue(docs, kb) <==> exists d :: d in docs && d.kb == kb && d.generation == x
  {
    if docs != [] {
      var n := |docs| - 1;
      CatalogueMembers(docs[..n], kb, x);
      assert docs == docs[..n] + [docs[n]];
      if docs[n].kb == kb && docs[n].generation == x { assert docs[n] in docs; }
    }
  }

  function TableRows(table: seq<TableRow>, kb: Id): seq<Row> {
    if table == [] then []
    else TableRows(table[..|table|-1], kb) + (if table[|table|-1].kb == kb then [table[|table|-1].row] else [])
  }

  function TableWithout(table: seq<TableRow>, kb: Id, doc: Id): seq<TableRow> {
    if table == [] then []
    else
      var last := table[|table|-1];
      if last.kb == kb && last.row.doc == doc then TableWithout(table[..|table|-1], kb, doc)
      else TableWithout(table[..|table|-1], kb, doc) + [last]
  }

  function MemoryRows(memory: MemoryIndex, stack: Stack, kb: Id): seq<Row> {
    if (stack, kb) in memory then memory[(stack, kb)] else []
  }

  // One knowledge base as the ingest loop sees it, and the loop's counters.
  datatype Target = Target(kb: Id, stack: Stack, embed: string -> Vector, remaining: Option<nat>)
  datatype Progress = Progress(docs: seq<Doc>, table: seq<TableRow>, memory: MemoryIndex, ingested: nat, skipped: nat)

  function IndexRows(t: Target, p: Progress): seq<Row> {
    if t.stack == PgVector then TableRows(p.table, t.kb) else MemoryRows(p.memory, t.stack, t.kb)
  }

  function Store(t: Target, p: Progress, doc: Id, vector: Vector): Progress {
    if t.stack == PgVector then
      p.(table := TableWithout(p.table, t.kb, doc) + [TableRow(t.kb, Row(doc, vector))])
    else
      p.(memory := p.memory[(t.stack, t.kb) := Upsert(MemoryRows(p.memory, t.stack, t.kb), doc, vector)])
  }

  function AddDoc(t: Target, p: Progress, g: Generation): Progress
    requires g.id.Some?
  {
    var q := Store(t, p, g.id.value, t.embed(Text(g)));
    q.(docs := p.docs + [Doc(t.kb, g.id.value, Title(g))], ingested := p.ingested + 1)
  }

  // One turn of the loop, its checks in the order of the code.
  function IngestOne(t: Target, p: Progress, g: Generation): Progress {
    if g.id.None? || g.id.value in Catalogue(p.docs, t.kb) then p.(skipped := p.skipped + 1)
    else if t.remaining.Some? && p.ingested >= t.remaining.value then p.(skipped := p.skipped + 1)
    else if Text(g) == "" then p.(skipped := p.skipped + 1)
    else AddDoc(t, p, g)
  }

  function IngestAll(t: Target, p: Progress, gens: seq<Generation>): Progress
    decreases |gens|
  {
    if gens == [] then p else IngestAll(t, IngestOne(t, p, gens[0]), gens[1..])
  }

  // ---------------- the closed form ----------------

  predicate Usable(g: Generation) { g.id.Some? && Text(g) != "" }

  // The i-th generation is usable, new, and the first usable one with its id.
  ghost predicate IsFirst(gens: seq<Generation>, known: set<Id>, i: nat)
    requires i < |gens|
  {
    Usable(gens[i]) && gens[i].id.value !in known &&
    forall j :: 0 <= j < i && Usable(gens[j]) ==> gens[j].id != gens[i].id
  }

  // Those generations, in list order.
  ghost function Firsts(gens: seq<Generation>, known: set<Id>, n: nat): seq<Generation>
    requires n <= |gens|
  {
    if n == 0 then []
    else Firsts(gens, known, n - 1) + (if IsFirst(gens, known, n - 1) then [gens[n-1]] else [])
  }

  function Limit<T>(xs: seq<T>, remaining: Option<nat>): seq<T> {
    if remaining.Some? && remaining.value < |xs| then xs[..remaining.value] else xs
  }

  // The same list, computed front to back.
  function Eligible(gens: seq<Generation>, known: set<Id>): seq<Generation>
    decreases |gens|
  {
    if gens == [] then []
    else if Usable(gens[0]) && gens[0].id.value !in known then
      [gens[0]] + Eligible(gens[1..], known + {gens[0].id.value})
    else Eligible(gens[1..], known)
  }

  function UsableIds(gens: seq<Generation>): set<Id> {
    set i | 0 <= i < |gens| && Usable(gens[i]) :: gens[i].id.value
  }

  lemma {:induction false} EligibleAppend(gens: seq<Generation>, g: Generation, known: set<Id>)
    ensures Eligible(gens + [g], known)
         == Eligible(gens, known) + (if Usable(g) && g.id.value !in known + UsableIds(gens) then [g] else [])
    decreases |gens|
  {
    hide UsableIds;
    if gens == [] {
      NoUsableIds();
      assert [] + [g] == [g] && [g][1..] == [];
    } else {
      assert (gens + [g])[1..] == gens[1..] + [g];
      var known' := if Usable(gens[0]) then known + {gens[0].id.value} else known;
      UsableIdsOfRest(gens);
      assert known' + UsableIds(gens[1..]) == known + UsableIds(gens);
      if Usable(gens[0]) && gens[0].id.value !in known {
        EligibleAppend(gens[1..], g, known');
      } else {
        assert known' == known;
        EligibleAppend(gens[1..], g, known);
      }
    }
  }

  lemma NoUsableIds()
    ensures UsableIds([]) == {}
  {}

  lemma UsableIdsOfRest(gens: seq<Generation>)
    requires gens != []
    ensures UsableIds(gens) == (if Usable(gens[0]) then {gens[0].id.value} else {}) + UsableIds(gens[1..])
  {
    forall x | x in UsableIds(gens)
      ensures x in (if Usable(gens[0]) then {gens[0].id.value} else {}) + UsableIds(gens[1..])
    {
      var i :| 0 <= i < |gens| && Usable(gens[i]) && gens[i].id.value == x;
      if i > 0 { assert gens[1..][i-1] == gens[i]; }
    }
    forall x | x in UsableIds(gens[1..]) ensures x in UsableIds(gens) {
      var i :| 0 <= i < |gens[1..]| && Usable(gens[1..][i]) && gens[1..][i].id.value == x;
      assert gens[i+1] == gens[1..][i];
    }
  }

  lemma {:induction false} EligibleIsFirsts(gens: seq<Generation>, known: set<Id>, n: nat)
    requires n <= |gens|
    ensures Eligible(gens[..n], known) == Firsts(gens, known, n)
  {
    if n > 0 {
      EligibleIsFirsts(gens, known, n - 1);
      assert gens[..n] == gens[..n-1] + [gens[n-1]];
      EligibleAppend(gens[..n-1], gens[n-1], known);
      assert forall j :: 0 <= j < n - 1 ==> gens[..n-1][j] == gens[j];
      if Usable(gens[n-1]) && gens[n-1].id.value !in known {
        if gens[n-1].id.value in UsableIds(gens[..n-1]) {
          var j :| 0 <= j < n - 1 && Usable(gens[..n-1][j]) && gens[..n-1][j].id.value == gens[n-1].id.value;
          assert gens[j].id == gens[n-1].id;
        } else {
          forall j | 0 <= j < n - 1 && Usable(gens[j]) ensures gens[j].id != gens[n-1].id {
            assert gens[..n-1][j].id.value in UsableIds(gens[..n-1]);
          }
        }
      }
    }
  }

  // The index holds exactly the catalogued generations, in the same order.
  predicate IndexMatches(t: Target, p: Progress) { Docs(IndexRows(t, p)) == Catalogue(p.docs, t.kb) }

  // A new document without the search for an old one.
  function Append(t: Target, p: Progress, g: Generation): Progress
    requires g.id.Some?
  {
    var row := Row(g.id.value, t.embed(Text(g)));
    var q := p.(docs := p.docs + [Doc(t.kb, g.id.value, Title(g))], ingested := p.ingested + 1);
    if t.stack == PgVector then q.(table := p.table + [TableRow(t.kb, row)])
    else q.(memory := p.memory[(t.stack, t.kb) := MemoryRows(p.memory, t.stack, t.kb) + [row]])
  }

  predicate HaveIds(gs: seq<Generation>) { forall i :: 0 <= i < |gs| ==> gs[i].id.Some? }

  function AppendAll(t: Target, p: Progress, gs: seq<Generation>): Progress
    requires HaveIds(gs)
    decreases |gs|
  {
    if gs == [] then p else AppendAll(t, Append(t, p, gs[0]), gs[1..])
  }

  function Left(t: Target, p: Progress): Option<nat> {
    if t.remaining.None? then None
    else Some(if p.ingested < t.remaining.value then t.remaining.value - p.ingested else 0)
  }

  lemma CatalogueAppend(docs: seq<Doc>, d: Doc, kb: Id)
    ensures Catalogue(docs + [d], kb) == Catalogue(docs, kb) + (if d.kb == kb then [d.generation] else [])
  {
    assert (docs + [d])[..|docs|] == docs;
  }

  lemma TableRowsAppend(table: seq<TableRow>, r: TableRow, kb: Id)
    ensures TableRows(table + [r], kb) == TableRows(table, kb) + (if r.kb == kb then [r.row] else [])
  {
    assert (table + [r])[..|table|] == table;
  }

  lemma {:induction false} TableWithoutAbsent(table: seq<TableRow>, kb: Id, doc: Id)
    requires doc !in Docs(TableRows(table, kb))
    ensures TableWithout(table, kb, doc) == table
  {
    if table != [] {
      var front, last := table[..|table|-1], table[|table|-1];
      DocsAppend(TableRows(front, kb), if last.kb == kb then [last.row] else []);
      assert last.kb == kb ==> Docs([last.row])[0] == last.row.doc;
      TableWithoutAbsent(front, kb, doc);
      assert table == front + [last];
    }
  }

  lemma DocsAppend(a: seq<Row>, b: seq<Row>)
    ensures Docs(a + b) == Docs(a) + Docs(b)
  {}

  lemma {:induction false} TableWithoutRows(table: seq<TableRow>, kb: Id, doc: Id, k: Id)
    ensures TableRows(TableWithout(table, kb, doc), k)
         == if k == kb then Without(TableRows(table, kb), doc) else TableRows(table, k)
  {
    if table != [] {
      var front, last := table[..|table|-1], table[|table|-1];
      TableWithoutRows(front, kb, doc, k);
      TableRowsAppend(TableWithout(front, kb, doc), last, k);
      var rows := TableRows(front, k);
      assert (rows + [last.row])[..|rows|] == rows && rows + [] == rows;
    }
  }

  // The shared table and the in-process lists behave as one index: storing a vector
  // replaces the document's row in its own knowledge base and touches no other.
  lemma StoreUpserts(t: Target, p: Progress, doc: Id, vector: Vector, other: Target)
    requires other.kb != t.kb
    ensures IndexRows(t, Store(t, p, doc, vector)) == Upsert(IndexRows(t, p), doc, vector)
    ensures IndexRows(other, Store(t, p, doc, vector)) == IndexRows(other, p)
  {
    hide TableRows, TableWithout, Without;
    TableWithoutRows(p.table, t.kb, doc, t.kb);
    TableWithoutRows(p.table, t.kb, doc, other.kb);
    TableRowsAppend(TableWithout(p.table, t.kb, doc), TableRow(t.kb, Row(doc, vector)), t.kb);
    TableRowsAppend(TableWithout(p.table, t.kb, doc), TableRow(t.kb, Row(doc, vector)), other.kb);
  }

  lemma AddIsAppend(t: Target, p: Progress, g: Generation)
    requires IndexMatches(t, p) && g.id.Some? && g.id.value !in Catalogue(p.docs, t.kb)
    ensures AddDoc(t, p, g) == Append(t, p, g)
    ensures IndexMatches(t, Append(t, p, g))
    ensures Catalogue(Append(t, p, g).docs, t.kb) == Catalogue(p.docs, t.kb) + [g.id.value]
    ensures IndexRows(t, Append(t, p, g)) == IndexRows(t, p) + [Row(g.id.value, t.embed(Text(g)))]
  {
    var row := Row(g.id.value, t.embed(Text(g)));
    CatalogueAppend(p.docs, Doc(t.kb, g.id.value, Title(g)), t.kb);
    DocsAppend(IndexRows(t, p), [row]);
    assert Docs([row]) == [g.id.value];
    if t.stack == PgVector {
      TableWithoutAbsent(p.table, t.kb, g.id.value);
      TableRowsAppend(p.table, TableRow(t.kb, row), t.kb);
    } else {
      var rows := MemoryRows(p.memory, t.stack, t.kb);
      assert forall i :: 0 <= i < |rows| ==> Docs(rows)[i] == rows[i].doc;
      WithoutAbsent(rows, g.id.value);
    }
  }

  function SetOf(ids: seq<Id>): set<Id> { set x | x in ids }

  lemma {:induction false} EligibleHaveIds(gens: seq<Generation>, known: set<Id>)
    ensures HaveIds(Eligible(gens, known)) && |Eligible(gens, known)| <= |gens|
    decreases |gens|
  {
    if gens != [] {
      EligibleHaveIds(gens[1..], known);
      if Usable(gens[0]) { EligibleHaveIds(gens[1..], known + {gens[0].id.value}); }
    }
  }

  // What the batch adds to a knowledge base: the eligible ones within the quota.
  function Selected(t: Target, p: Progress, gens: seq<Generation>): (gs: seq<Generation>)
    ensures HaveIds(gs) && |gs| <= |gens|
  {
    EligibleHaveIds(gens, SetOf(Catalogue(p.docs, t.kb)));
    Limit(Eligible(gens, SetOf(Catalogue(p.docs, t.kb))), Left(t, p))
  }

  lemma LimitCons<T>(x: T, xs: seq<T>, remaining: Option<nat>)
    requires remaining != Some(0)
    ensures Limit([x] + xs, remaining)
         == [x] + Limit(xs, if remaining.Some? then Some(remaining.value - 1) else None)
  {}

  lemma AppendCounts(t: Target, p: Progress, g: Generation)
    requires g.id.Some?
    ensures Append(t, p, g).ingested == p.ingested + 1
  {}

  lemma SelectedStep(t: Target, p: Progress, gens: seq<Generation>)
    requires gens != [] && IndexMatches(t, p)
    ensures var q := IngestOne(t, p, gens[0]);
            && IndexMatches(t, q)
            && (if q.ingested > p.ingested
                then gens[0].id.Some? && q == Append(t, p, gens[0]) && Selected(t, p, gens) == [gens[0]] + Selected(t, q, gens[1..])
                else q == p.(skipped := p.skipped + 1) && Selected(t, p, gens) == Selected(t, q, gens[1..]))
  {
    hide Catalogue, AddDoc, Append, Text, HaveIds;
    var g, q := gens[0], IngestOne(t, p, gens[0]);
    var known := SetOf(Catalogue(p.docs, t.kb));
    if q.ingested > p.ingested {
      AddIsAppend(t, p, g);
      AppendCounts(t, p, g);
      assert SetOf(Catalogue(q.docs, t.kb)) == known + {g.id.value};
      LimitCons(g, Eligible(gens[1..], known + {g.id.value}), Left(t, p));
    } else if Usable(g) && g.id.value !in known {
      AddIsAppend(t, p, g);
      AppendCounts(t, p, g);
      assert Left(t, p) == Some(0);
    }
  }

  // The loop stores exactly the selected generations, in list order, and skips
  // every other one.
  lemma {:induction false} IngestClosedForm(t: Target, p: Progress, gens: seq<Generation>)
    requires IndexMatches(t, p)
    ensures var gs := Selected(t, p, gens);
            && IngestAll(t, p, gens) == AppendAll(t, p, gs).(skipped := p.skipped + |gens| - |gs|)
            && IngestAll(t, p, gens).ingested == p.ingested + |gs|
            && IndexMatches(t, IngestAll(t, p, gens))
    decreases |gens|
  {
    if gens != [] {
      SelectedStep(t, p, gens);
      var g, q := gens[0], IngestOne(t, p, gens[0]);
      IngestClosedForm(t, q, gens[1..]);
      var rest := Selected(t, q, gens[1..]);
      if q.ingested > p.ingested {
        assert ([g] + rest)[1..] == rest;
      } else {
        AppendIgnoresSkipped(t, p, rest, p.skipped + 1);
      }
    }
  }

  lemma {:induction false} AppendIgnoresSkipped(t: Target, p: Progress, gs: seq<Generation>, n: nat)
    requires HaveIds(gs)
    ensures AppendAll(t, p.(skipped := n), gs) == AppendAll(t, p, gs).(skipped := n)
    ensures AppendAll(t, p, gs).skipped == p.skipped
    decreases |gs|
  {
    if gs != [] {
      AppendIgnoresSkipped(t, Append(t, p, gs[0]), gs[1..], n);
    }
  }

  // ---------------- batches ----------------

  lemma {:induction false} IngestConcat(t: Target, p: Progress, a: seq<Generation>, b: seq<Generation>)
    ensures IngestAll(t, p, a + b) == IngestAll(t, IngestAll(t, p, a), b)
    decreases |a|
  {
    if a == [] {
      assert a + b == b;
    } else {
      assert (a + b)[1..] == a[1..] + b;
      IngestConcat(t, IngestOne(t, p, a[0]), a[1..], b);
    }
  }

  // Every generation is counted once, and the quota is never exceeded.
  lemma {:induction false} IngestCounts(t: Target, p: Progress, gens: seq<Generation>)
    ensures var q := IngestAll(t, p, gens);
            && q.ingested + q.skipped == p.ingested + p.skipped + |gens|
            && p.ingested <= q.ingested
            && (t.remaining.Some? && p.ingested <= t.remaining.value ==> q.ingested <= t.remaining.value)
    decreases |gens|
  {
    if gens != [] { IngestCounts(t, IngestOne(t, p, gens[0]), gens[1..]); }
  }

  // Each document counted is one row of its own catalogue, and of no other.
  lemma {:induction false} IngestCatalogue(t: Target, p: Progress, gens: seq<Generation>, kb: Id)
    ensures var q := IngestAll(t, p, gens);
            |Catalogue(q.docs, kb)| == |Catalogue(p.docs, kb)| + (if kb == t.kb then q.ingested - p.ingested else 0)
    decreases |gens|
  {
    hide Catalogue, Text, Store;
    if gens != [] {
      var g := gens[0];
      if g.id.Some? { CatalogueAppend(p.docs, Doc(t.kb, g.id.value, Title(g)), kb); }
      IngestCatalogue(t, IngestOne(t, p, g), gens[1..], kb);
    }
  }

  // Only what is left of the quota matters, not how it was used up.
  lemma {:induction false} IngestShift(t: Target, u: Target, p: Progress, q: Progress, gens: seq<Generation>)
    requires u == t.(remaining := Left(t, p)) && q == p.(ingested := 0, skipped := 0)
    requires t.remaining.Some? ==> p.ingested <= t.remaining.value
    ensures var x, y := IngestAll(t, p, gens), IngestAll(u, q, gens);
            && (x.docs, x.table, x.memory) == (y.docs, y.table, y.memory)
            && x.ingested == p.ingested + y.ingested && x.skipped == p.skipped + y.skipped
  {
    IngestShiftBy(t, u, p, q, gens, p.ingested, p.skipped);
  }

  lemma {:induction false} IngestShiftBy(t: Target, u: Target, p: Progress, q: Progress, gens: seq<Generation>, i: nat, k: nat)
    requires t.remaining.Some? ==> i <= t.remaining.value
    requires u == t.(remaining := u.remaining)
    requires if t.remaining.None? then u.remaining.None? else u.remaining.Some? && u.remaining.value == t.remaining.value - i
    requires p == q.(ingested := q.ingested + i, skipped := q.skipped + k)
    ensures IngestAll(t, p, gens) == IngestAll(u, q, gens).(ingested := IngestAll(u, q, gens).ingested + i,
                                                             skipped := IngestAll(u, q, gens).skipped + k)
    decreases |gens|
  {
    if gens != [] {
      IngestShiftBy(t, u, IngestOne(t, p, gens[0]), IngestOne(u, q, gens[0]), gens[1..], i, k);
    }
  }

  // Ingesting a batch twice under one cap adds nothing the second time.
  lemma {:induction false} EligibleAgain(gens: seq<Generation>, known: set<Id>)
    requires UsableIds(gens) <= known
    ensures Eligible(gens, known) == []
    decreases |gens|
  {
    if gens != [] {
      UsableIdsOfRest(gens);
      EligibleAgain(gens[1..], known);
    }
  }

  lemma {:induction false} EligibleIds(gens: seq<Generation>, known: set<Id>)
    ensures UsableIds(gens) <= known + UsableIds(Eligible(gens, known))
    ensures UsableIds(Eligible(gens, known)) !! known
    decreases |gens|
  {
    if gens != [] {
      UsableIdsOfRest(gens);
      if Usable(gens[0]) && gens[0].id.value !in known {
        EligibleIds(gens[1..], known + {gens[0].id.value});
        UsableIdsOfRest(Eligible(gens, known));
        assert Eligible(gens, known)[1..] == Eligible(gens[1..], known + {gens[0].id.value});
      } else {
        EligibleIds(gens[1..], known);
      }
    }
  }

  lemma {:induction false} AppendAllCatalogue(t: Target, p: Progress, gs: seq<Generation>, kb: Id)
    requires HaveIds(gs)
    ensures Catalogue(AppendAll(t, p, gs).docs, kb) == Catalogue(p.docs, kb) + (if kb == t.kb then Ids(gs) else [])
    decreases |gs|
  {
    hide Catalogue, Text, Title, MemoryRows;
    var before := Catalogue(p.docs, kb);
    if gs == [] {
      assert Ids(gs) == [] && before + [] == before;
    } else {
      var id := gs[0].id.value;
      CatalogueAppend(p.docs, Doc(t.kb, id, Title(gs[0])), kb);
      AppendAllCatalogue(t, Append(t, p, gs[0]), gs[1..], kb);
      if kb == t.kb {
        assert Ids(gs) == [id] + Ids(gs[1..]);
        assert (before + [id]) + Ids(gs[1..]) == before + ([id] + Ids(gs[1..]));
      } else {
        assert before + [] == before;
      }
    }
  }

  // The document rows that a batch adds, each with its title.
  lemma {:induction false} AppendAllDocs(t: Target, p: Progress, gs: seq<Generation>)
    requires HaveIds(gs)
    ensures AppendAll(t, p, gs).docs
         == p.docs + seq(|gs|, i requires 0 <= i < |gs| => Doc(t.kb, gs[i].id.value, Title(gs[i])))
    decreases |gs|
  {
    hide Title, Text;
    if gs != [] {
      AppendAllDocs(t, Append(t, p, gs[0]), gs[1..]);
    }
  }

  function Ids(gs: seq<Generation>): seq<Id>
    requires HaveIds(gs)
  {
    seq(|gs|, i requires 0 <= i < |gs| => gs[i].id.value)
  }

  lemma RepeatAddsNothing(t: Target, p: Progress, gens: seq<Generation>)
    requires IndexMatches(t, p)
    ensures var once := IngestAll(t, p, gens);
            var twice := IngestAll(t, once, gens);
            twice == once.(skipped := once.skipped + |gens|)
  {
    IngestClosedForm(t, p, gens);
    var once := IngestAll(t, p, gens);
    IngestClosedForm(t, once, gens);
    var known, gs := SetOf(Catalogue(p.docs, t.kb)), Selected(t, p, gens);
    AppendAllCatalogue(t, p, gs, t.kb);
    if gs == Eligible(gens, known) {
      EligibleIds(gens, known);
      forall x | x in UsableIds(gs) ensures x in SetOf(Catalogue(once.docs, t.kb)) {
        var i :| 0 <= i < |gs| && Usable(gs[i]) && gs[i].id.value == x;
        assert Ids(gs)[i] == x;
      }
      forall x | x in known ensures x in SetOf(Catalogue(once.docs, t.kb)) {}
      EligibleAgain(gens, SetOf(Catalogue(once.docs, t.kb)));
    } else {
      assert Left(t, once) == Some(0);
    }
    assert Selected(t, once, gens) == [];
  }
}
