/** The vector indexes behind a knowledge base: a shared SQL table for pgvector,
    and per-stack lists in process memory for a stack without its own backend. */
module VectorStore {
  import opened VectorMath

  type Id = nat

  datatype Row = Row(doc: Id, vector: Vector)
  datatype Hit = Hit(doc: Id, score: real)

  function Without(rows: seq<Row>, doc: Id): seq<Row> {
    if rows == [] then []
    else if rows[|rows|-1].doc == doc then Without(rows[..|rows|-1], doc)
    else Without(rows[..|rows|-1], doc) + [rows[|rows|-1]]
  }

  // Replaces the document's row, at the end.
  function Upsert(rows: seq<Row>, doc: Id, vector: Vector): seq<Row> {
    Without(rows, doc) + [Row(doc, vector)]
  }

  function Docs(rows: seq<Row>): seq<Id> {
    seq(|rows|, i requires 0 <= i < |rows| => rows[i].doc)
  }

  lemma {:induction false} WithoutAbsent(rows: seq<Row>, doc: Id)
    requires forall i :: 0 <= i < |rows| ==> rows[i].doc != doc
    ensures Without(rows, doc) == rows
  {
    if rows != [] {
      var front := rows[..|rows|-1];
      WithoutAbsent(front, doc);
      assert rows == front + [rows[|rows|-1]];
    }
  }

  // The rows of one document.
  function RowsOf(rows: seq<Row>, doc: Id): seq<Row> {
    if rows == [] then []
    else if rows[|rows|-1].doc == doc then RowsOf(rows[..|rows|-1], doc) + [rows[|rows|-1]]
    else RowsOf(rows[..|rows|-1], doc)
  }

  lemma {:induction false} WithoutRows(rows: seq<Row>, doc: Id, d: Id)
    ensures RowsOf(Without(rows, doc), d) == if d == doc then [] else RowsOf(rows, d)
  {
    if rows != [] {
      var front := rows[..|rows|-1];
      WithoutRows(front, doc, d);
      assert (Without(front, doc) + [rows[|rows|-1]])[..|Without(front, doc)|] == Without(front, doc);
    }
  }

  // After an upsert the document has the one row given, and every other document
  // has the rows it had.
  lemma UpsertReplaces(rows: seq<Row>, doc: Id, vector: Vector, d: Id)
    ensures RowsOf(Upsert(rows, doc, vector), d) == if d == doc then [Row(doc, vector)] else RowsOf(rows, d)
  {
    WithoutRows(rows, doc, d);
    assert Upsert(rows, doc, vector)[..|Without(rows, doc)|] == Without(rows, doc);
  }

  // ---------------- ranking ----------------

  function Scored(root: real -> real, query: Vector, rows: seq<Row>): seq<Hit> {
    seq(|rows|, i requires 0 <= i < |rows| => Hit(rows[i].doc, Cosine(root, query, rows[i].vector)))
  }

  // Into a descending list, behind the entries that score as high.
  function Insert(h: Hit, sorted: seq<Hit>): seq<Hit> {
    if sorted == [] || sorted[0].score < h.score then [h] + sorted else [sorted[0]] + Insert(h, sorted[1..])
  }

  // Stable, by descending score.
  function SortDescending(hits: seq<Hit>): seq<Hit> {
    if hits == [] then [] else Insert(hits[|hits|-1], SortDescending(hits[..|hits|-1]))
  }

  ghost predicate Descending(hits: seq<Hit>) {
    forall i, j :: 0 <= i < j < |hits| ==> hits[i].score >= hits[j].score
  }

  function WithScore(hits: seq<Hit>, score: real): seq<Hit> {
    if hits == [] then []
    else (if hits[0].score == score then [hits[0]] else []) + WithScore(hits[1..], score)
  }

  lemma {:induction false} InsertContents(h: Hit, sorted: seq<Hit>)
    ensures |Insert(h, sorted)| == |sorted| + 1
    ensures multiset(Insert(h, sorted)) == multiset(sorted) + multiset{h}
  {
    if sorted != [] && sorted[0].score >= h.score {
      InsertContents(h, sorted[1..]);
      assert sorted == [sorted[0]] + sorted[1..];
    }
  }

  lemma {:induction false} InsertSorts(h: Hit, sorted: seq<Hit>)
    requires Descending(sorted)
    ensures Descending(Insert(h, sorted))
  {
    if sorted != [] && sorted[0].score >= h.score {
      var rest := Insert(h, sorted[1..]);
      InsertSorts(h, sorted[1..]);
      InsertContents(h, sorted[1..]);
      forall i | 0 <= i < |rest| ensures rest[i].score <= sorted[0].score {
        assert rest[i] in multiset(rest);
      }
    }
  }

  lemma {:induction false} InsertIsStable(h: Hit, sorted: seq<Hit>, score: real)
    requires Descending(sorted)
    ensures WithScore(Insert(h, sorted), score)
         == if h.score == score then WithScore(sorted, score) + [h] else WithScore(sorted, score)
  {
    if sorted == [] {
      assert [h][1..] == [];
    } else if sorted[0].score < h.score {
      assert ([h] + sorted)[1..] == sorted;
      if h.score == score { NoneWithScore(sorted, score); }
    } else {
      InsertIsStable(h, sorted[1..], score);
      var rest := Insert(h, sorted[1..]);
      assert ([sorted[0]] + rest)[1..] == rest && ([sorted[0]] + rest)[0] == sorted[0];
      var head := if sorted[0].score == score then [sorted[0]] else [];
      assert WithScore([sorted[0]] + rest, score) == head + WithScore(rest, score);
      assert head + (WithScore(sorted[1..], score) + [h]) == head + WithScore(sorted[1..], score) + [h];
    }
  }

  lemma {:induction false} NoneWithScore(hits: seq<Hit>, score: real)
    requires forall i :: 0 <= i < |hits| ==> hits[i].score < score
    ensures WithScore(hits, score) == []
  {
    if hits != [] { NoneWithScore(hits[1..], score); }
  }

  // Sorting is descending, loses and invents nothing, and keeps the order of hits
  // that score alike.
  lemma {:induction false} SortIsStable(hits: seq<Hit>)
    ensures Descending(SortDescending(hits)) && multiset(SortDescending(hits)) == multiset(hits)
    ensures |SortDescending(hits)| == |hits|
    ensures forall score :: WithScore(SortDescending(hits), score) == WithScore(hits, score)
  {
    if hits != [] {
      var front, last := hits[..|hits|-1], hits[|hits|-1];
      SortIsStable(front);
      InsertSorts(last, SortDescending(front));
      InsertContents(last, SortDescending(front));
      assert hits == front + [last];
      forall score ensures WithScore(SortDescending(hits), score) == WithScore(hits, score) {
        InsertIsStable(last, SortDescending(front), score);
        WithScoreAppend(front, last, score);
      }
    }
  }

  lemma {:induction false} WithScoreAppend(hits: seq<Hit>, h: Hit, score: real)
    ensures WithScore(hits + [h], score)
         == if h.score == score then WithScore(hits, score) + [h] else WithScore(hits, score)
  {
    if hits != [] {
      assert (hits + [h])[1..] == hits[1..] + [h];
      WithScoreAppend(hits[1..], h, score);
    }
  }

  // A negative top_k is a Python slice from the end and is not modelled.
  function Query(root: real -> real, rows: seq<Row>, query: Vector, topK: nat): seq<Hit> {
    var sorted := SortDescending(Scored(root, query, rows));
    sorted[..if topK < |sorted| then topK else |sorted|]
  }

  lemma TakeOut<T>(s: seq<T>, k: nat)
    requires k <= |s|
    ensures multiset(s[..k]) <= multiset(s) && multiset(s) - multiset(s[..k]) == multiset(s[k..])
  {
    assert s == s[..k] + s[k..];
  }

  lemma BestOfSorted(sorted: seq<Hit>, k: nat)
    requires Descending(sorted) && k <= |sorted|
    ensures Descending(sorted[..k]) && multiset(sorted[..k]) <= multiset(sorted)
    ensures forall x, h :: x in multiset(sorted) - multiset(sorted[..k]) && h in sorted[..k] ==> x.score <= h.score
  {
    TakeOut(sorted, k);
    forall x, h | x in sorted[k..] && h in sorted[..k] ensures x.score <= h.score {
      var i :| 0 <= i < |sorted[k..]| && sorted[k..][i] == x;
      var j :| 0 <= j < k && sorted[..k][j] == h;
      assert sorted[k + i] == x && sorted[j] == h;
    }
  }

  lemma ScoresBounded(root: real -> real, rows: seq<Row>, query: Vector)
    requires ExactRoot(root)
    ensures forall h <- Scored(root, query, rows) :: -1.0 <= h.score <= 1.0
  {
    forall i | 0 <= i < |rows| ensures -1.0 <= Scored(root, query, rows)[i].score <= 1.0 {
      CosineBounded(root, query, rows[i].vector);
    }
  }

  // The answer is the best min(k, n) rows: descending scores within [-1, 1], all
  // taken from the rows, and no row left out scores above one taken.
  lemma QueryIsTopK(root: real -> real, rows: seq<Row>, query: Vector, topK: nat)
    requires ExactRoot(root)
    ensures var hits := Query(root, rows, query, topK);
            && |hits| == (if topK < |rows| then topK else |rows|)
            && Descending(hits)
            && multiset(hits) <= multiset(Scored(root, query, rows))
            && (forall h <- hits :: -1.0 <= h.score <= 1.0)
            && (forall x, h :: x in multiset(Scored(root, query, rows)) - multiset(hits) && h in hits ==> x.score <= h.score)
  {
    var scored := Scored(root, query, rows);
    var sorted := SortDescending(scored);
    var hits := Query(root, rows, query, topK);
    SortIsStable(scored);
    BestOfSorted(sorted, |hits|);
    ScoresBounded(root, rows, query);
    forall h | h in hits ensures h in scored {
      assert h in multiset(sorted);
    }
  }

  // ---------------- whose hits they are ----------------

  // Every hit is a row, with that row's document and that row's similarity.
  lemma EveryHitIsARow(root: real -> real, rows: seq<Row>, query: Vector, topK: nat)
    ensures forall h <- Query(root, rows, query, topK) ::
              exists i :: 0 <= i < |rows| && h.doc == rows[i].doc && h.score == Cosine(root, query, rows[i].vector)
  {
    hide Cosine;
    var scored := Scored(root, query, rows);
    SortIsStable(scored);
    forall h | h in Query(root, rows, query, topK)
      ensures exists i :: 0 <= i < |rows| && h.doc == rows[i].doc && h.score == Cosine(root, query, rows[i].vector)
    {
      assert h in multiset(SortDescending(scored));
      var i :| 0 <= i < |scored| && scored[i] == h;
      assert h.doc == rows[i].doc;
    }
  }

  // Every row is a hit, or the answer is full of rows that are at least as similar.
  lemma EveryRowIsRanked(root: real -> real, rows: seq<Row>, query: Vector, topK: nat, i: nat)
    requires ExactRoot(root) && i < |rows|
    ensures var hits, score := Query(root, rows, query, topK), Cosine(root, query, rows[i].vector);
            Hit(rows[i].doc, score) in hits || (|hits| == topK && forall h <- hits :: score <= h.score)
  {
    hide Cosine;
    var scored, hits := Scored(root, query, rows), Query(root, rows, query, topK);
    QueryIsTopK(root, rows, query, topK);
    var x := Hit(rows[i].doc, Cosine(root, query, rows[i].vector));
    assert scored[i] == x;
    if x !in hits {
      assert x in multiset(scored) - multiset(hits);
      if |hits| == |rows| { AllTaken(scored, hits, x); }
    }
  }

  lemma AllTaken(scored: seq<Hit>, hits: seq<Hit>, x: Hit)
    requires multiset(hits) <= multiset(scored) && |hits| == |scored| && x in scored
    ensures x in hits
  {
    assert |multiset(scored) - multiset(hits)| == 0;
    assert multiset(scored) == multiset(hits) + (multiset(scored) - multiset(hits));
    assert x in multiset(hits);
  }

  ghost predicate DistinctDocs(rows: seq<Row>) { forall i, j :: 0 <= i < j < |rows| ==> rows[i].doc != rows[j].doc }

  ghost predicate DistinctHits(hits: seq<Hit>) { forall i, j :: 0 <= i < j < |hits| ==> hits[i].doc != hits[j].doc }

  lemma {:induction false} OccursOnce(hits: seq<Hit>, i: nat)
    requires DistinctHits(hits) && i < |hits|
    ensures multiset(hits)[hits[i]] == 1
  {
    var n := |hits| - 1;
    assert hits == hits[..n] + [hits[n]];
    if i < n {
      OccursOnce(hits[..n], i);
    } else {
      assert forall j :: 0 <= j < n ==> hits[..n][j] != hits[n];
      assert multiset(hits[..n])[hits[n]] == 0;
    }
  }

  lemma OccursTwice(hits: seq<Hit>, i: nat, j: nat)
    requires i < j < |hits| && hits[i] == hits[j]
    ensures multiset(hits)[hits[i]] >= 2
  {
    assert hits == hits[..j] + hits[j..];
    assert hits[..j][i] == hits[i] && hits[j..][0] == hits[i];
    assert hits[i] in multiset(hits[..j]) && hits[i] in multiset(hits[j..]);
  }

  // A document is at most once among the hits when it has at most one row.
  lemma HitsAreDistinct(root: real -> real, rows: seq<Row>, query: Vector, topK: nat)
    requires DistinctDocs(rows)
    ensures DistinctHits(Query(root, rows, query, topK))
  {
    hide Cosine;
    var scored := Scored(root, query, rows);
    var sorted := SortDescending(scored);
    SortIsStable(scored);
    assert DistinctHits(scored);
    forall i, j | 0 <= i < j < |sorted| ensures sorted[i].doc != sorted[j].doc {
      assert sorted[i] in multiset(scored) && sorted[j] in multiset(scored);
      var p :| 0 <= p < |scored| && scored[p] == sorted[i];
      var q :| 0 <= q < |scored| && scored[q] == sorted[j];
      if sorted[i].doc == sorted[j].doc {
        assert p == q;
        OccursOnce(scored, p);
        OccursTwice(sorted, i, j);
      }
    }
  }

  // A document that scores 1 puts a score of 1 first.
  lemma PerfectMatchFirst(root: real -> real, rows: seq<Row>, query: Vector, topK: nat, i: nat)
    requires ExactRoot(root) && i < |rows| && Cosine(root, query, rows[i].vector) == 1.0 && topK > 0
    ensures var hits := Query(root, rows, query, topK); hits != [] && hits[0].score == 1.0
  {
    QueryIsTopK(root, rows, query, topK);
    var scored := Scored(root, query, rows);
    SortIsStable(scored);
    var sorted := SortDescending(scored);
    assert scored[i].score == 1.0 && scored[i] in multiset(sorted);
    var j :| 0 <= j < |sorted| && sorted[j] == scored[i];
    assert sorted[0].score >= sorted[j].score;
  }

  // And it is among the hits itself, unless they all score 1.
  lemma PerfectMatchFound(root: real -> real, rows: seq<Row>, query: Vector, topK: nat, i: nat)
    requires ExactRoot(root) && i < |rows| && Cosine(root, query, rows[i].vector) == 1.0
    ensures var hits := Query(root, rows, query, topK);
            Hit(rows[i].doc, 1.0) in hits || (|hits| == topK && forall h <- hits :: h.score == 1.0)
  {
    EveryRowIsRanked(root, rows, query, topK, i);
    QueryIsTopK(root, rows, query, topK);
  }
}
