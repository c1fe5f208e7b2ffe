/**
 Version deltas and their replay (src/store/lance/commit.rs).

 Compaction rebuilds a history on a side branch: starting from the first
 commit's rows it computes the delta between each commit and the next and
 applies it. This module has the delta, its application, and what a whole
 replay leaves for every document.
 */
module Snapshots {
  import opened Collections
  import opened Lexical

  type DocId = string

  /** The columns of a chunk that a delta does not compare. */
  datatype Columns = Columns(docType: string, chunkCount: nat, tokenStart: nat, docTokenLen: nat,
                             embedding: seq<real>, clustering: seq<real>)

  /** One stored chunk. */
  datatype ChunkRow = ChunkRow(docId: DocId, chunkIndex: int, content: string, columns: Columns)

  type Chunk = (int, string)

  /** What a scan sees of a version: each document's set of (chunk_index, content) pairs. */
  type Docs = map<DocId, set<Chunk>>

  datatype VersionDelta = VersionDelta(rowsToAppend: seq<ChunkRow>, docIdsToDelete: set<DocId>)

  function Pairs(rows: seq<ChunkRow>, id: DocId): set<Chunk> {
    set r | r in rows && r.docId == id :: (r.chunkIndex, r.content)
  }

  function Ids(rows: seq<ChunkRow>): set<DocId> {
    set r | r in rows :: r.docId
  }

  function Scan(rows: seq<ChunkRow>): Docs {
    map id | id in Ids(rows) :: Pairs(rows, id)
  }

  function Without(rows: seq<ChunkRow>, ids: set<DocId>): seq<ChunkRow> {
    if rows == [] then []
    else (if rows[0].docId in ids then [] else [rows[0]]) + Without(rows[1..], ids)
  }

  function Only(rows: seq<ChunkRow>, ids: set<DocId>): seq<ChunkRow> {
    if rows == [] then []
    else (if rows[0].docId in ids then [rows[0]] else []) + Only(rows[1..], ids)
  }

  lemma {:induction false} WithoutMembers(rows: seq<ChunkRow>, ids: set<DocId>)
    ensures forall r :: r in Without(rows, ids) <==> r in rows && r.docId !in ids
  {
    if rows != [] {
      WithoutMembers(rows[1..], ids);
      assert rows == [rows[0]] + rows[1..];
    }
  }

  lemma {:induction false} WithoutNone(rows: seq<ChunkRow>)
    ensures Without(rows, {}) == rows
  {
    if rows != [] {
      WithoutNone(rows[1..]);
    }
  }

  lemma {:induction false} OnlyMembers(rows: seq<ChunkRow>, ids: set<DocId>)
    ensures forall r :: r in Only(rows, ids) <==> r in rows && r.docId in ids
  {
    if rows != [] {
      OnlyMembers(rows[1..], ids);
      assert rows == [rows[0]] + rows[1..];
    }
  }

  lemma {:induction false} WithoutCounts(rows: seq<ChunkRow>, ids: set<DocId>)
    ensures forall r :: multiset(Without(rows, ids))[r] == if r.docId in ids then 0 else multiset(rows)[r]
  {
    if rows != [] {
      WithoutCounts(rows[1..], ids);
      assert rows == [rows[0]] + rows[1..];
    }
  }

  lemma {:induction false} OnlyNone(rows: seq<ChunkRow>)
    ensures Only(rows, {}) == []
  {
    if rows != [] {
      OnlyNone(rows[1..]);
    }
  }

  // ── Delta between two versions ─────────────────────────────────────────────

  /** Documents whose rows are read from version b: added, or in both with different chunks. */
  function ToRead(a: Docs, b: Docs): set<DocId> {
    set id | id in b && (id !in a || a[id] != b[id])
  }

  function Removed(a: Docs, b: Docs): set<DocId> {
    a.Keys - b.Keys
  }

  /** Applying the delta from a to b: removed documents go, read ones are added on top of what is there. */
  function Applied(here: Docs, a: Docs, b: Docs): Docs {
    map id | id in (here.Keys - Removed(a, b)) + ToRead(a, b) ::
      (if id in here && id !in Removed(a, b) then here[id] else {}) + (if id in ToRead(a, b) then b[id] else {})
  }

  /** One document's part of applying a delta. */
  lemma AppliedAt(here: Docs, a: Docs, b: Docs, id: DocId)
    ensures var r, kept, read := Applied(here, a, b), id in here && id !in Removed(a, b), id in ToRead(a, b);
            && (id in r <==> kept || read)
            && (id in r ==> r[id] == (if kept then here[id] else {}) + (if read then b[id] else {}))
  {
  }

  /** A scan has exactly the documents of the rows, and of each exactly the places and contents of its rows. */
  lemma ScanMeans(rows: seq<ChunkRow>)
    ensures forall id :: id in Scan(rows) <==> exists r :: r in rows && r.docId == id
    ensures forall id, i, c ::
              id in Scan(rows) && (i, c) in Scan(rows)[id]
              <==> exists r :: r in rows && r.docId == id && r.chunkIndex == i && r.content == c
  {
    forall id, i, c
      ensures id in Scan(rows) && (i, c) in Scan(rows)[id]
              <==> exists r :: r in rows && r.docId == id && r.chunkIndex == i && r.content == c
    {
      if r :| r in rows && r.docId == id && r.chunkIndex == i && r.content == c {
        assert id in Ids(rows) && (r.chunkIndex, r.content) in Pairs(rows, id);
      }
    }
  }

  /** A row of the same document with the same place and content, whatever its other columns. */
  ghost predicate HasSame(rows: seq<ChunkRow>, r: ChunkRow) {
    exists q :: q in rows && q.docId == r.docId && q.chunkIndex == r.chunkIndex && q.content == r.content
  }

  /** Every row of one version's document has such a row in the other version. */
  ghost predicate Covers(a: seq<ChunkRow>, b: seq<ChunkRow>, id: DocId) {
    forall r :: r in b && r.docId == id ==> HasSame(a, r)
  }

  lemma PairMeans(rows: seq<ChunkRow>, r: ChunkRow)
    ensures HasSame(rows, r) <==> r.docId in Scan(rows) && (r.chunkIndex, r.content) in Scan(rows)[r.docId]
  {
    ScanMeans(rows);
  }

  /** Two versions scan a document alike iff each has all the other's rows of it. */
  lemma SameScanOf(a: seq<ChunkRow>, b: seq<ChunkRow>, id: DocId)
    requires id in Scan(a) && id in Scan(b)
    ensures Scan(a)[id] == Scan(b)[id] <==> Covers(a, b, id) && Covers(b, a, id)
  {
    ScanSubset(a, b, id);
    ScanSubset(b, a, id);
  }

  lemma ScanSubset(a: seq<ChunkRow>, b: seq<ChunkRow>, id: DocId)
    requires id in Scan(a) && id in Scan(b)
    ensures Scan(b)[id] <= Scan(a)[id] <==> Covers(a, b, id)
  {
    if Scan(b)[id] <= Scan(a)[id] {
      forall r | r in b && r.docId == id ensures HasSame(a, r) {
        assert (r.chunkIndex, r.content) in Scan(b)[id];
        PairMeans(a, r);
      }
    }
    if Covers(a, b, id) {
      forall p | p in Scan(b)[id] ensures p in Scan(a)[id] {
        var r :| r in b && r.docId == id && (r.chunkIndex, r.content) == p;
        PairMeans(a, r);
      }
    }
  }

  /** Two versions scan alike iff each has all the other's rows, other columns aside. */
  lemma SameScans(a: seq<ChunkRow>, b: seq<ChunkRow>)
    ensures Scan(a) == Scan(b) <==> (forall r :: r in a ==> HasSame(b, r)) && forall r :: r in b ==> HasSame(a, r)
  {
    if Scan(a) == Scan(b) {
      AllThere(a, b);
      AllThere(b, a);
    }
    if (forall r :: r in a ==> HasSame(b, r)) && forall r :: r in b ==> HasSame(a, r) {
      IdsThere(a, b);
      IdsThere(b, a);
      forall id | id in Scan(a) ensures Scan(a)[id] == Scan(b)[id] {
        SameScanOf(a, b, id);
      }
    }
  }

  lemma AllThere(a: seq<ChunkRow>, b: seq<ChunkRow>)
    requires Scan(a) == Scan(b)
    ensures forall r :: r in a ==> HasSame(b, r)
  {
    forall r | r in a ensures HasSame(b, r) {
      assert HasSame(a, r);
      PairMeans(a, r);
      PairMeans(b, r);
    }
  }

  lemma IdsThere(a: seq<ChunkRow>, b: seq<ChunkRow>)
    requires forall r :: r in a ==> HasSame(b, r)
    ensures Scan(a).Keys <= Scan(b).Keys
  {
    forall id | id in Scan(a) ensures id in Scan(b) {
      var r :| r in a && r.docId == id;
      PairMeans(b, r);
    }
  }

  method ScanDocIdContent(rows: seq<ChunkRow>) returns (out: Docs)
    ensures out == Scan(rows)
    ensures forall id :: id in out <==> exists r :: r in rows && r.docId == id
    ensures forall id, i, c ::
              id in out && (i, c) in out[id] <==> exists r :: r in rows && r.docId == id && r.chunkIndex == i && r.content == c
  {
    ScanMeans(rows);
    out := map[];
    for i := 0 to |rows|
      invariant out.Keys == Ids(rows[..i])
      invariant forall id :: id in out ==> out[id] == Pairs(rows[..i], id)
    {
      var r := rows[i];
      assert rows[..i + 1] == rows[..i] + [r];
      var there := if r.docId in out then out[r.docId] else {};
      if r.docId !in out { assert Pairs(rows[..i], r.docId) == {}; }
      out := out[r.docId := there + {(r.chunkIndex, r.content)}];
    }
    assert rows[..|rows|] == rows;
  }

  predicate RowLe(a: ChunkRow, b: ChunkRow) {
    StrLt(a.docId, b.docId) || (a.docId == b.docId && a.chunkIndex <= b.chunkIndex)
  }

  lemma RowLeIsOrder()
    ensures TotalPreorder(RowLe)
  {
    StrIsOrder();
    forall a, b, c | RowLe(a, b) && RowLe(b, c) ensures RowLe(a, c) {
      assert StrLe(a.docId, c.docId);
      if a.docId == c.docId {
        StrTotal(a.docId, b.docId);
      }
    }
  }

  /** All rows of the given documents, sorted by document and chunk. */
  method ScanFullRows(rows: seq<ChunkRow>, ids: set<DocId>) returns (out: seq<ChunkRow>)
    ensures multiset(out) == multiset(Only(rows, ids))
    ensures SortedBy(out, RowLe)
    ensures forall r :: multiset(out)[r] == if r.docId in ids then multiset(rows)[r] else 0
    ensures forall i, j :: 0 <= i < j < |out| ==>
              StrLt(out[i].docId, out[j].docId) || (out[i].docId == out[j].docId && out[i].chunkIndex <= out[j].chunkIndex)
  {
    RowLeIsOrder();
    out := SortBy(Only(rows, ids), RowLe);
    OnlyCounts(rows, ids);
    forall i, j | 0 <= i < j < |out|
      ensures StrLt(out[i].docId, out[j].docId) || (out[i].docId == out[j].docId && out[i].chunkIndex <= out[j].chunkIndex)
    {
      assert RowLe(out[i], out[j]);
    }
  }

  lemma {:induction false} OnlyCounts(rows: seq<ChunkRow>, ids: set<DocId>)
    ensures forall r :: multiset(Only(rows, ids))[r] == if r.docId in ids then multiset(rows)[r] else 0
  {
    if rows != [] {
      OnlyCounts(rows[1..], ids);
      assert rows == [rows[0]] + rows[1..];
    }
  }

  /** Documents of both scans whose chunks differ. */
  method ChangedDocs(docsA: Docs, docsB: Docs) returns (changed: set<DocId>)
    ensures changed == set id | id in docsA && id in docsB && docsA[id] != docsB[id]
  {
    var common := docsA.Keys * docsB.Keys;
    changed := {};
    var rest := common;
    while rest != {}
      invariant rest <= common
      invariant changed == set id | id in common && id !in rest && docsA[id] != docsB[id]
      decreases |rest|
    {
      var id :| id in rest;
      rest := rest - {id};
      if docsA[id] != docsB[id] {
        changed := changed + {id};
      }
    }
  }

  method ComputeDelta(docsA: Docs, docsB: Docs, rowsB: seq<ChunkRow>) returns (delta: VersionDelta)
    ensures delta.docIdsToDelete == Removed(docsA, docsB)
    ensures multiset(delta.rowsToAppend) == multiset(Only(rowsB, ToRead(docsA, docsB)))
    ensures docsB == Scan(rowsB) ==> (delta.rowsToAppend == [] <==> ToRead(docsA, docsB) == {})
  {
    var added := docsB.Keys - docsA.Keys;
    var removed := docsA.Keys - docsB.Keys;
    var changed := ChangedDocs(docsA, docsB);
    var docsToRead := added + changed;
    assert docsToRead == ToRead(docsA, docsB);
    var rows := [];
    if docsToRead != {} {
      rows := ScanFullRows(rowsB, docsToRead);
    } else {
      OnlyNone(rowsB);
    }
    NothingToRead(rowsB, docsToRead);
    assert rows == [] <==> |multiset(rows)| == 0;
    delta := VersionDelta(rows, removed);
  }

  /**
     The delta between two versions: the documents only the first has are to be
     deleted, and the rows to append are those, each as often as it is there, of
     the second's documents that the first lacks or has with other chunks.
     */
  method DeltaBetween(rowsA: seq<ChunkRow>, rowsB: seq<ChunkRow>) returns (delta: VersionDelta)
    ensures delta.docIdsToDelete == Removed(Scan(rowsA), Scan(rowsB))
    ensures multiset(delta.rowsToAppend) == multiset(Only(rowsB, ToRead(Scan(rowsA), Scan(rowsB))))
    ensures delta.rowsToAppend == [] <==> ToRead(Scan(rowsA), Scan(rowsB)) == {}
    ensures forall id :: id in delta.docIdsToDelete <==>
              (exists r :: r in rowsA && r.docId == id) && forall r :: r in rowsB ==> r.docId != id
    ensures forall r :: r in rowsB ==>
              multiset(delta.rowsToAppend)[r] ==
              if Covers(rowsA, rowsB, r.docId) && Covers(rowsB, rowsA, r.docId) then 0 else multiset(rowsB)[r]
    ensures forall r :: r in delta.rowsToAppend ==> r in rowsB
  {
    var docsA := ScanDocIdContent(rowsA);
    var docsB := ScanDocIdContent(rowsB);
    delta := ComputeDelta(docsA, docsB, rowsB);
    ReadRows(rowsA, rowsB, delta.rowsToAppend);
    OnlyInFirst(rowsA, rowsB);
  }

  lemma OnlyInFirst(a: seq<ChunkRow>, b: seq<ChunkRow>)
    ensures forall id :: id in Removed(Scan(a), Scan(b)) <==>
              (exists r :: r in a && r.docId == id) && forall r :: r in b ==> r.docId != id
  {
    ScanMeans(a);
    ScanMeans(b);
    forall id ensures id in Removed(Scan(a), Scan(b)) <==>
              (exists r :: r in a && r.docId == id) && forall r :: r in b ==> r.docId != id
    {
      assert id in Scan(b) <==> exists r :: r in b && r.docId == id;
    }
  }

  lemma ReadRows(rowsA: seq<ChunkRow>, rowsB: seq<ChunkRow>, rows: seq<ChunkRow>)
    requires multiset(rows) == multiset(Only(rowsB, ToRead(Scan(rowsA), Scan(rowsB))))
    ensures forall r :: r in rowsB ==>
              multiset(rows)[r] == if Covers(rowsA, rowsB, r.docId) && Covers(rowsB, rowsA, r.docId) then 0 else multiset(rowsB)[r]
    ensures forall r :: r in rows ==> r in rowsB
  {
    OnlyCounts(rowsB, ToRead(Scan(rowsA), Scan(rowsB)));
    forall r | r in rowsB
      ensures multiset(rows)[r] == if Covers(rowsA, rowsB, r.docId) && Covers(rowsB, rowsA, r.docId) then 0 else multiset(rowsB)[r]
    {
      ReadIfDifferent(rowsA, rowsB, r);
    }
    forall r | r in rows ensures r in rowsB {
      assert r in multiset(rows);
      assert multiset(rowsB)[r] > 0;
    }
  }

  /** A row of b is read exactly if its document's chunks are not the same in a. */
  lemma ReadIfDifferent(a: seq<ChunkRow>, b: seq<ChunkRow>, r: ChunkRow)
    requires r in b
    ensures r.docId in ToRead(Scan(a), Scan(b)) <==> !(Covers(a, b, r.docId) && Covers(b, a, r.docId))
  {
    PairMeans(b, r);
    assert HasSame(b, r);
    if r.docId in Scan(a) {
      SameScanOf(a, b, r.docId);
    } else {
      PairMeans(a, r);
    }
  }

  /** Documents that are there have rows to read. */
  lemma NothingToRead(rows: seq<ChunkRow>, ids: set<DocId>)
    ensures ids <= Ids(rows) ==> (|multiset(Only(rows, ids))| == 0 <==> ids == {})
  {
    OnlyNone(rows);
    if ids <= Ids(rows) && ids != {} {
      var id :| id in ids;
      assert id in Ids(rows);
      var r :| r in rows && r.docId == id;
      OnlyMembers(rows, ids);
      assert r in Only(rows, ids);
      assert r in multiset(Only(rows, ids));
    }
  }

  /** A delta between two scans is empty exactly when the scans are the same. */
  lemma SameScansNoDelta(a: Docs, b: Docs)
    ensures Removed(a, b) == {} && ToRead(a, b) == {} <==> a == b
  {
    if Removed(a, b) == {} && ToRead(a, b) == {} {
      forall id ensures id in a <==> id in b {
        assert id !in Removed(a, b) && id !in ToRead(a, b);
      }
      forall id | id in a ensures a[id] == b[id] {
        assert id !in ToRead(a, b);
      }
    }
  }

  /** The rows of `here` after a delta, as the branch ends up with them. */
  function AppliedRows(here: seq<ChunkRow>, delta: VersionDelta): seq<ChunkRow> {
    Without(here, delta.docIdsToDelete) + delta.rowsToAppend
  }

  /** On what a scan sees, applying a computed delta is `Applied`. */
  lemma AppliedRowsScan(here: seq<ChunkRow>, a: seq<ChunkRow>, b: seq<ChunkRow>, delta: VersionDelta)
    requires delta.docIdsToDelete == Removed(Scan(a), Scan(b))
    requires multiset(delta.rowsToAppend) == multiset(Only(b, ToRead(Scan(a), Scan(b))))
    ensures Scan(AppliedRows(here, delta)) == Applied(Scan(here), Scan(a), Scan(b))
  {
    var gone, read := Removed(Scan(a), Scan(b)), ToRead(Scan(a), Scan(b));
    var rows := AppliedRows(here, delta);
    AppliedMembers(here, b, delta, read);
    var applied := Applied(Scan(here), Scan(a), Scan(b));
    IdsApplied(here, b, rows, gone, read);
    assert applied.Keys == Ids(rows);
    forall id | id in applied ensures Scan(rows)[id] == applied[id] {
      PairsApplied(here, b, rows, gone, read, id);
      PairsOfAbsent(here, id);
    }
  }

  lemma AppliedMembers(here: seq<ChunkRow>, b: seq<ChunkRow>, delta: VersionDelta, read: set<DocId>)
    requires multiset(delta.rowsToAppend) == multiset(Only(b, read))
    ensures forall r :: r in AppliedRows(here, delta) <==>
                        (r in here && r.docId !in delta.docIdsToDelete) || (r in b && r.docId in read)
  {
    WithoutMembers(here, delta.docIdsToDelete);
    OnlyMembers(b, read);
    forall r ensures r in delta.rowsToAppend <==> r in b && r.docId in read {
      assert r in delta.rowsToAppend <==> r in multiset(delta.rowsToAppend);
      assert r in Only(b, read) <==> r in multiset(Only(b, read));
    }
  }

  lemma IdsApplied(here: seq<ChunkRow>, b: seq<ChunkRow>, rows: seq<ChunkRow>, gone: set<DocId>, read: set<DocId>)
    requires forall r :: r in rows <==> (r in here && r.docId !in gone) || (r in b && r.docId in read)
    requires read <= Ids(b)
    ensures Ids(rows) == (Ids(here) - gone) + read
  {
    forall id | id in (Ids(here) - gone) + read ensures id in Ids(rows) {
      if id in read {
        var r :| r in b && r.docId == id;
        assert r in rows;
      } else {
        var r :| r in here && r.docId == id;
        assert r in rows;
      }
    }
  }

  lemma PairsOfAbsent(rows: seq<ChunkRow>, id: DocId)
    ensures id !in Ids(rows) ==> Pairs(rows, id) == {}
  {
    assert forall r :: r in rows ==> r.docId in Ids(rows);
  }

  lemma PairsApplied(here: seq<ChunkRow>, b: seq<ChunkRow>, rows: seq<ChunkRow>, gone: set<DocId>, read: set<DocId>, id: DocId)
    requires forall r :: r in rows <==> (r in here && r.docId !in gone) || (r in b && r.docId in read)
    ensures Pairs(rows, id) == (if id !in gone then Pairs(here, id) else {}) + (if id in read then Pairs(b, id) else {})
  {
    forall p | p in Pairs(rows, id)
      ensures p in (if id !in gone then Pairs(here, id) else {}) + (if id in read then Pairs(b, id) else {})
    {
      var r :| r in rows && r.docId == id && (r.chunkIndex, r.content) == p;
    }
    forall p | p in (if id !in gone then Pairs(here, id) else {}) + (if id in read then Pairs(b, id) else {})
      ensures p in Pairs(rows, id)
    {
      if id !in gone && p in Pairs(here, id) {
        var r :| r in here && r.docId == id && (r.chunkIndex, r.content) == p;
        assert r in rows;
      } else {
        var r :| r in b && r.docId == id && (r.chunkIndex, r.content) == p;
        assert r in rows;
      }
    }
  }

  // ── Replaying a history ────────────────────────────────────────────────────

  /** The rebuild branch after commits 0..i, started from `base`. */
  function Rebuilt(base: Docs, snaps: seq<Docs>, i: nat): Docs
    requires i < |snaps|
  {
    if i == 0 then base else Applied(Rebuilt(base, snaps, i - 1), snaps[i - 1], snaps[i])
  }

  /** Everything document `id` held at any commit since it was last added. */
  function SinceAdded(snaps: seq<Docs>, i: nat, id: DocId): set<Chunk>
    requires i < |snaps|
  {
    if id !in snaps[i] then {}
    else if i == 0 || id !in snaps[i - 1] then snaps[i][id]
    else SinceAdded(snaps, i - 1, id) + snaps[i][id]
  }

  /** No chunk the document held since it was last added is missing now. */
  ghost predicate NothingDropped(snaps: seq<Docs>, i: nat, id: DocId)
    requires i < |snaps| && id in snaps[i]
  {
    SinceAdded(snaps, i, id) <= snaps[i][id]
  }

  /** Replay is right about which documents exist, and accumulates their chunks. */
  lemma {:induction false} ReplayAccumulates(snaps: seq<Docs>, i: nat)
    requires i < |snaps|
    ensures var r := Rebuilt(snaps[0], snaps, i);
            && r.Keys == snaps[i].Keys
            && forall id :: id in r ==> r[id] == SinceAdded(snaps, i, id)
  {
    if i > 0 {
      ReplayAccumulates(snaps, i - 1);
      var r := Rebuilt(snaps[0], snaps, i);
      forall id ensures (id in r <==> id in snaps[i]) && (id in r ==> r[id] == SinceAdded(snaps, i, id)) {
        AccumulatesStep(Rebuilt(snaps[0], snaps, i - 1), snaps, i, id);
      }
    }
  }

  lemma AccumulatesStep(here: Docs, snaps: seq<Docs>, i: nat, id: DocId)
    requires 0 < i < |snaps|
    requires (id in here <==> id in snaps[i - 1]) && (id in here ==> here[id] == SinceAdded(snaps, i - 1, id))
    ensures var r := Applied(here, snaps[i - 1], snaps[i]);
            (id in r <==> id in snaps[i]) && (id in r ==> r[id] == SinceAdded(snaps, i, id))
  {
    AppliedAt(here, snaps[i - 1], snaps[i], id);
    if id in snaps[i - 1] && id in snaps[i] {
      SinceAddedContainsNow(snaps, i - 1, id);
    }
  }

  lemma SinceAddedContainsNow(snaps: seq<Docs>, i: nat, id: DocId)
    requires i < |snaps| && id in snaps[i]
    ensures snaps[i][id] <= SinceAdded(snaps, i, id)
  {
  }

  /** A rebuilt version shows a document as its commit did iff the document never dropped a chunk. */
  lemma ReplayFaithfulFor(snaps: seq<Docs>, i: nat, id: DocId)
    requires i < |snaps| && id in snaps[i]
    ensures id in Rebuilt(snaps[0], snaps, i)
    ensures Rebuilt(snaps[0], snaps, i)[id] == snaps[i][id] <==> NothingDropped(snaps, i, id)
  {
    ReplayAccumulates(snaps, i);
    SinceAddedContainsNow(snaps, i, id);
  }

  /** A rebuilt version scans exactly as its commit iff no surviving document ever dropped a chunk. */
  lemma ReplayFaithful(snaps: seq<Docs>, i: nat)
    requires i < |snaps|
    ensures Rebuilt(snaps[0], snaps, i) == snaps[i] <==> forall id :: id in snaps[i] ==> NothingDropped(snaps, i, id)
  {
    ReplayAccumulates(snaps, i);
    forall id | id in snaps[i]
      ensures Rebuilt(snaps[0], snaps, i)[id] == snaps[i][id] <==> NothingDropped(snaps, i, id)
    {
      ReplayFaithfulFor(snaps, i, id);
    }
  }

  /** Between commits j-1 and j no surviving document changed. */
  ghost predicate NoneChanged(snaps: seq<Docs>, j: nat)
    requires 0 < j < |snaps|
  {
    forall id :: id in snaps[j - 1] && id in snaps[j] ==> snaps[j - 1][id] == snaps[j][id]
  }

  /** In particular it does when documents are only added and removed, never changed in place. */
  lemma {:induction false} UnchangedDocumentsReplay(snaps: seq<Docs>, i: nat)
    requires i < |snaps|
    requires forall j :: 0 < j <= i ==> NoneChanged(snaps, j)
    ensures Rebuilt(snaps[0], snaps, i) == snaps[i]
  {
    if i > 0 {
      UnchangedDocumentsReplay(snaps, i - 1);
      assert NoneChanged(snaps, i);
      var a, b := snaps[i - 1], snaps[i];
      forall id ensures (id in Applied(a, a, b) <==> id in b) && (id in b ==> Applied(a, a, b)[id] == b[id]) {
        AppliedAt(a, a, b, id);
        assert id in a && id in b ==> a[id] == b[id];
      }
    }
  }

  // ── Replaying from other rows than the first commit's ──────────────────────

  predicate ReadAt(snaps: seq<Docs>, j: nat, id: DocId)
    requires 0 < j < |snaps|
  {
    id in ToRead(snaps[j - 1], snaps[j])
  }

  predicate RemovedAt(snaps: seq<Docs>, j: nat, id: DocId)
    requires 0 < j < |snaps|
  {
    id in Removed(snaps[j - 1], snaps[j])
  }

  /** No delta up to commit i removes the document, so what the base has of it stays. */
  ghost predicate NeverRemoved(snaps: seq<Docs>, i: nat, id: DocId)
    requires i < |snaps|
  {
    forall j :: 0 < j <= i ==> !RemovedAt(snaps, j, id)
  }

  /** Delta j reads the document, and none after it up to commit i removes it. */
  ghost predicate ReadAndKept(snaps: seq<Docs>, i: nat, j: nat, id: DocId)
    requires 0 < j <= i < |snaps|
  {
    ReadAt(snaps, j, id) && forall k :: j < k <= i ==> !RemovedAt(snaps, k, id)
  }

  ghost predicate ReadSinceRemoved(snaps: seq<Docs>, i: nat, id: DocId)
    requires i < |snaps|
  {
    exists j :: 0 < j <= i && ReadAndKept(snaps, i, j, id)
  }

  /** The chunks that deltas read of the document since they last removed it. */
  ghost function ChunksRead(snaps: seq<Docs>, i: nat, id: DocId): set<Chunk>
    requires i < |snaps|
  {
    if i == 0 || RemovedAt(snaps, i, id) then {}
    else ChunksRead(snaps, i - 1, id) + (if ReadAt(snaps, i, id) then snaps[i][id] else {})
  }

  function At(docs: Docs, id: DocId): set<Chunk> {
    if id in docs then docs[id] else {}
  }

  /** What any base becomes: what it has of documents no delta removes, and what the deltas read. */
  lemma {:induction false} RebuiltFrom(base: Docs, snaps: seq<Docs>, i: nat, id: DocId)
    requires i < |snaps|
    ensures var r := Rebuilt(base, snaps, i);
            && (id in r <==> (id in base && NeverRemoved(snaps, i, id)) || ReadSinceRemoved(snaps, i, id))
            && (id in r ==> r[id] == (if NeverRemoved(snaps, i, id) then At(base, id) else {}) + ChunksRead(snaps, i, id))
  {
    if i > 0 {
      RebuiltFrom(base, snaps, i - 1, id);
      FromStep(base, Rebuilt(base, snaps, i - 1), snaps, i, id);
    }
  }

  lemma FromStep(base: Docs, here: Docs, snaps: seq<Docs>, i: nat, id: DocId)
    requires 0 < i < |snaps|
    requires id in here <==> (id in base && NeverRemoved(snaps, i - 1, id)) || ReadSinceRemoved(snaps, i - 1, id)
    requires id in here ==> here[id] == (if NeverRemoved(snaps, i - 1, id) then At(base, id) else {}) + ChunksRead(snaps, i - 1, id)
    ensures var r := Applied(here, snaps[i - 1], snaps[i]);
            && (id in r <==> (id in base && NeverRemoved(snaps, i, id)) || ReadSinceRemoved(snaps, i, id))
            && (id in r ==> r[id] == (if NeverRemoved(snaps, i, id) then At(base, id) else {}) + ChunksRead(snaps, i, id))
  {
    AppliedAt(here, snaps[i - 1], snaps[i], id);
    RemovalStep(snaps, i, id);
    NothingReadNothingThere(snaps, i - 1, id);
  }

  lemma RemovalStep(snaps: seq<Docs>, i: nat, id: DocId)
    requires 0 < i < |snaps|
    ensures NeverRemoved(snaps, i, id) <==> NeverRemoved(snaps, i - 1, id) && !RemovedAt(snaps, i, id)
    ensures ReadSinceRemoved(snaps, i, id) <==>
              !RemovedAt(snaps, i, id) && (ReadAt(snaps, i, id) || ReadSinceRemoved(snaps, i - 1, id))
  {
    if ReadSinceRemoved(snaps, i, id) {
      var j :| 0 < j <= i && ReadAndKept(snaps, i, j, id);
      if j < i {
        assert ReadAndKept(snaps, i - 1, j, id);
      }
    }
    if !RemovedAt(snaps, i, id) && ReadSinceRemoved(snaps, i - 1, id) {
      var j :| 0 < j <= i - 1 && ReadAndKept(snaps, i - 1, j, id);
      assert ReadAndKept(snaps, i, j, id);
    }
    if ReadAt(snaps, i, id) {
      assert ReadAndKept(snaps, i, i, id);
    }
  }

  lemma {:induction false} NothingReadNothingThere(snaps: seq<Docs>, i: nat, id: DocId)
    requires i < |snaps|
    ensures !ReadSinceRemoved(snaps, i, id) ==> ChunksRead(snaps, i, id) == {}
  {
    if i > 0 {
      NothingReadNothingThere(snaps, i - 1, id);
      RemovalStep(snaps, i, id);
    }
  }

  /** A document comes out of the replay of `base` as commit i had it. */
  ghost predicate ComesOut(base: Docs, snaps: seq<Docs>, i: nat, id: DocId)
    requires i < |snaps|
  {
    var kept := id in base && NeverRemoved(snaps, i, id);
    if id in snaps[i] then
      && (kept || ReadSinceRemoved(snaps, i, id))
      && snaps[i][id] == (if kept then base[id] else {}) + ChunksRead(snaps, i, id)
    else !kept
  }

  /** A version rebuilt from any base scans as its commit iff every document comes out right. */
  lemma ReplayFaithfulFrom(base: Docs, snaps: seq<Docs>, i: nat)
    requires i < |snaps|
    ensures Rebuilt(base, snaps, i) == snaps[i] <==> forall id :: ComesOut(base, snaps, i, id)
  {
    var r := Rebuilt(base, snaps, i);
    forall id ensures ComesOut(base, snaps, i, id) <==> (id in r <==> id in snaps[i]) && (id in r && id in snaps[i] ==> r[id] == snaps[i][id]) {
      RebuiltFrom(base, snaps, i, id);
      AbsentIsUnread(snaps, i, id);
    }
  }

  lemma {:induction false} AbsentIsUnread(snaps: seq<Docs>, i: nat, id: DocId)
    requires i < |snaps|
    ensures id !in snaps[i] ==> !ReadSinceRemoved(snaps, i, id)
  {
    if i > 0 {
      AbsentIsUnread(snaps, i - 1, id);
      RemovalStep(snaps, i, id);
    }
  }

  /** From an empty base a document no commit touches never appears, though none of its chunks was ever dropped. */
  lemma WrongBaseHidesDocuments(docs: Docs)
    requires docs != map[]
    ensures var snaps := [docs, docs];
            && (forall id :: id in snaps[1] ==> NothingDropped(snaps, 1, id))
            && Rebuilt(map[], snaps, 1) == map[] != snaps[1]
  {
    var snaps := [docs, docs];
    assert ToRead(docs, docs) == {} && Removed(docs, docs) == {};
    assert Rebuilt(map[], snaps, 1) == Applied(map[], docs, docs) == map[];
    forall id | id in snaps[1] ensures NothingDropped(snaps, 1, id) {
      assert SinceAdded(snaps, 1, id) == SinceAdded(snaps, 0, id) + docs[id];
    }
  }

  /** A document cut from two chunks to one still shows both after the replay. */
  lemma ShrinkingDocumentStaysLong()
    ensures var snaps := [map["d" := {(0, "a"), (1, "b")}], map["d" := {(0, "a")}]];
            Rebuilt(snaps[0], snaps, 1)["d"] == {(0, "a"), (1, "b")}
  {
    var snaps: seq<Docs> := [map["d" := {(0, "a"), (1, "b")}], map["d" := {(0, "a")}]];
    assert (1, "b") in snaps[0]["d"] && (1, "b") !in snaps[1]["d"];
    assert "d" in ToRead(snaps[0], snaps[1]);
    assert Rebuilt(snaps[0], snaps, 1) == Applied(snaps[0], snaps[0], snaps[1]);
  }
}
