/** `RecordService` of backend/src/services/record.service.ts: parsed rows are stored chunk by chunk, and the
    created and failed rows are counted. The database's answer to each `insertMany` is a parameter. */
module RecordCreation {
  import opened Json
  import opened Chunking
  import opened Records
  import FileParser

  /** The document `createRecords` hands to `insertMany` for one row: the row's fields, the upload job, and
      the whole row as metadata. Casting it to a typed record is left to the database. */
  datatype RecordDoc = RecordDoc(
    uploadJobId: ObjectId,
    transactionId: Value,
    referenceNumber: Value,
    amount: Value,
    date: Value,
    description: Value,
    sourceSystem: Value,
    metadata: FileParser.Row)

  /** The document built for `row` (the `chunk.map` callback). */
  function DocOf(job: ObjectId, row: FileParser.Row): RecordDoc {
    RecordDoc(job, Get(row, "transactionId"), Get(row, "referenceNumber"), Get(row, "amount"), Get(row, "date"),
      Get(row, "description"), Get(row, "sourceSystem"), row)
  }

  /** The documents of a chunk, in order. */
  function Docs(job: ObjectId, rows: seq<FileParser.Row>): (r: seq<RecordDoc>)
    ensures |r| == |rows|
    ensures forall i :: 0 <= i < |rows| ==> r[i] == DocOf(job, rows[i])
  {
    if rows == [] then [] else Docs(job, rows[..|rows| - 1]) + [DocOf(job, rows[|rows| - 1])]
  }

  /** How `insertMany(docs, {ordered: false})` ended: every document stored, a `writeErrors` list naming
      the positions it rejected (the others are stored), or any other error (nothing stored). */
  datatype InsertOutcome = Inserted | WriteErrors(failed: set<nat>) | OtherError

  /** The rejected positions among the first `n`. */
  function Rejected(failed: set<nat>, n: nat): (r: set<nat>)
    ensures |r| <= n
    ensures forall j :: j in r <==> j < n && j in failed
  {
    if n == 0 then {} else
      var prev := Rejected(failed, n - 1);
      if n - 1 in failed then prev + {n - 1} else prev
  }

  /** The documents not rejected, in order. */
  function Kept(docs: seq<RecordDoc>, failed: set<nat>): (r: seq<RecordDoc>)
    ensures |r| == |docs| - |Rejected(failed, |docs|)|
    ensures forall d :: d in r ==> d in docs
  {
    if docs == [] then []
    else
      var prev := Kept(docs[..|docs| - 1], failed);
      assert forall d :: d in docs[..|docs| - 1] ==> d in docs;
      if |docs| - 1 in failed then prev else prev + [docs[|docs| - 1]]
  }

  /** `created`, `errors`, and the documents stored so far. */
  datatype Tally = Tally(created: nat, errors: nat, added: seq<RecordDoc>)

  /** One pass of the chunk loop: the `try` branch when every document is stored, the `writeErrors` branch,
      or the other `catch` branch. */
  function ChunkStep(t: Tally, docs: seq<RecordDoc>, outcome: InsertOutcome): Tally {
    match outcome
    case Inserted => Tally(t.created + |docs|, t.errors, t.added + docs)
    case WriteErrors(failed) =>
      var bad := |Rejected(failed, |docs|)|;
      Tally(t.created + (|docs| - bad), t.errors + bad, t.added + Kept(docs, failed))
    case OtherError => Tally(t.created, t.errors + |docs|, t.added)
  }

  /** The counters and the stored documents after the chunks `chunks`; `insert(k, docs)` is the database's
      answer to the `k`-th `insertMany`. */
  function Ingest(job: ObjectId, chunks: seq<seq<FileParser.Row>>, insert: (nat, seq<RecordDoc>) -> InsertOutcome): Tally
    decreases |chunks|
  {
    if chunks == [] then Tally(0, 0, [])
    else
      var k := |chunks| - 1;
      var docs := Docs(job, chunks[k]);
      ChunkStep(Ingest(job, chunks[..k], insert), docs, insert(k, docs))
  }

  lemma {:induction false} FlattenSnoc<T>(ss: seq<seq<T>>, s: seq<T>)
    ensures Flatten(ss + [s]) == Flatten(ss) + s
    decreases |ss|
  {
    if ss != [] {
      assert (ss + [s])[1..] == ss[1..] + [s];
      FlattenSnoc(ss[1..], s);
    }
  }

  /** Every row of the chunks is counted once, as created or as an error. */
  lemma {:induction false} IngestAccounts(job: ObjectId, chunks: seq<seq<FileParser.Row>>,
                                          insert: (nat, seq<RecordDoc>) -> InsertOutcome)
    ensures Ingest(job, chunks, insert).created + Ingest(job, chunks, insert).errors == |Flatten(chunks)|
    decreases |chunks|
  {
    if chunks != [] {
      var k := |chunks| - 1;
      IngestAccounts(job, chunks[..k], insert);
      assert chunks == chunks[..k] + [chunks[k]];
      FlattenSnoc(chunks[..k], chunks[k]);
    }
  }

  /** Hence `created + errors` is the number of rows, whatever the chunk size and the database's answers. */
  lemma CreatedPlusErrors(job: ObjectId, rows: seq<FileParser.Row>, chunkSize: nat,
                          insert: (nat, seq<RecordDoc>) -> InsertOutcome)
    requires chunkSize > 0
    ensures var t := Ingest(job, Chunks(rows, chunkSize), insert);
            t.created + t.errors == |rows| && t.created <= |rows|
  {
    IngestAccounts(job, Chunks(rows, chunkSize), insert);
    ChunksCover(rows, chunkSize);
  }

  /** Every stored document is the document of one of the rows: it carries the upload job and its row as
      metadata. */
  lemma {:induction false} IngestStoresRowDocs(job: ObjectId, chunks: seq<seq<FileParser.Row>>,
                                               insert: (nat, seq<RecordDoc>) -> InsertOutcome)
    ensures forall d :: d in Ingest(job, chunks, insert).added ==>
              d.metadata in Flatten(chunks) && d == DocOf(job, d.metadata) && d.uploadJobId == job
    decreases |chunks|
  {
    if chunks != [] {
      var k := |chunks| - 1;
      IngestStoresRowDocs(job, chunks[..k], insert);
      assert chunks == chunks[..k] + [chunks[k]];
      FlattenSnoc(chunks[..k], chunks[k]);
      var docs := Docs(job, chunks[k]);
      forall d | d in docs ensures d.metadata in chunks[k] && d == DocOf(job, d.metadata) {
        var i :| 0 <= i < |docs| && docs[i] == d;
      }
    }
  }

  lemma {:induction false} DocsAppend(job: ObjectId, a: seq<FileParser.Row>, b: seq<FileParser.Row>)
    ensures Docs(job, a + b) == Docs(job, a) + Docs(job, b)
  {
  }

  /** When the database accepts every chunk, every row is stored, in order, and nothing is an error. */
  lemma {:induction false} AllInsertedStoresEveryRow(job: ObjectId, chunks: seq<seq<FileParser.Row>>,
                                                     insert: (nat, seq<RecordDoc>) -> InsertOutcome)
    requires forall k, docs :: insert(k, docs) == Inserted
    ensures Ingest(job, chunks, insert) == Tally(|Flatten(chunks)|, 0, Docs(job, Flatten(chunks)))
    decreases |chunks|
  {
    if chunks != [] {
      var k := |chunks| - 1;
      AllInsertedStoresEveryRow(job, chunks[..k], insert);
      assert chunks == chunks[..k] + [chunks[k]];
      FlattenSnoc(chunks[..k], chunks[k]);
      DocsAppend(job, Flatten(chunks[..k]), chunks[k]);
    }
  }

  /** When every `insertMany` fails outright, nothing is stored and every row is an error. */
  lemma {:induction false} AllFailedStoresNothing(job: ObjectId, chunks: seq<seq<FileParser.Row>>,
                                                  insert: (nat, seq<RecordDoc>) -> InsertOutcome)
    requires forall k, docs :: insert(k, docs) == OtherError
    ensures Ingest(job, chunks, insert) == Tally(0, |Flatten(chunks)|, [])
    decreases |chunks|
  {
    if chunks != [] {
      var k := |chunks| - 1;
      AllFailedStoresNothing(job, chunks[..k], insert);
      assert chunks == chunks[..k] + [chunks[k]];
      FlattenSnoc(chunks[..k], chunks[k]);
    }
  }

  /** The chunk loop's step: the chunks from position `i` on are the slice `[i, i + size)` (clipped to the
      end) followed by the chunks from `i + size` on. */
  lemma NextChunk<T>(s: seq<T>, i: nat, size: nat)
    requires size > 0 && i < |s|
    ensures var end := if i + size <= |s| then i + size else |s|;
            Chunks(s[i..], size) == [s[i..end]] + Chunks(if end < |s| then s[end..] else [], size)
  {
    var end := if i + size <= |s| then i + size else |s|;
    if end < |s| {
      assert s[i..][..size] == s[i..end];
      assert s[i..][size..] == s[end..];
    } else {
      assert s[i..] == s[i..end];
    }
  }

  lemma ChunksAdvance<T>(s: seq<T>, i: nat, size: nat, done: seq<seq<T>>)
    requires size > 0 && i < |s|
    requires Chunks(s, size) == done + Chunks(s[i..], size)
    ensures var end := if i + size <= |s| then i + size else |s|;
            Chunks(s, size) == (done + [s[i..end]]) + Chunks(if end < |s| then s[end..] else [], size)
  {
    NextChunk(s, i, size);
  }

  /** One pass of the chunk loop keeps the chunks and the tally in step. */
  lemma LoopStep(job: ObjectId, rows: seq<FileParser.Row>, size: nat, insert: (nat, seq<RecordDoc>) -> InsertOutcome,
                 done: seq<seq<FileParser.Row>>, i: nat)
    requires size > 0 && i < |rows|
    requires Chunks(rows, size) == done + Chunks(rows[i..], size)
    ensures var end := if i + size <= |rows| then i + size else |rows|;
            var docs := Docs(job, rows[i..end]);
            && Chunks(rows, size) == (done + [rows[i..end]]) + Chunks(if end < |rows| then rows[end..] else [], size)
            && Ingest(job, done + [rows[i..end]], insert) == ChunkStep(Ingest(job, done, insert), docs, insert(|done|, docs))
  {
    var end := if i + size <= |rows| then i + size else |rows|;
    ChunksAdvance(rows, i, size, done);
    IngestSnoc(job, done, rows[i..end], insert);
  }

  /** Regrouping a concatenation. Dafny knows this fact; stating it as a lemma hands the chunk loop of
      `CreateRecords` the one instance it needs, which keeps that loop's proof small. */
  lemma AppendAssoc<T>(a: seq<T>, b: seq<T>, c: seq<T>)
    ensures (a + b) + c == a + (b + c)
  {
  }

  /** A chunk's step adds the same amounts whatever the counters held before. */
  lemma ChunkStepShift(t: Tally, docs: seq<RecordDoc>, outcome: InsertOutcome)
    ensures var z := ChunkStep(Tally(0, 0, []), docs, outcome);
            ChunkStep(t, docs, outcome) == Tally(t.created + z.created, t.errors + z.errors, t.added + z.added)
  {
  }

  lemma IngestSnoc(job: ObjectId, done: seq<seq<FileParser.Row>>, chunk: seq<FileParser.Row>,
                   insert: (nat, seq<RecordDoc>) -> InsertOutcome)
    ensures Ingest(job, done + [chunk], insert) ==
              ChunkStep(Ingest(job, done, insert), Docs(job, chunk), insert(|done|, Docs(job, chunk)))
  {
    assert (done + [chunk])[..|done|] == done;
  }

  /** The documents of upload job `job`, in store order. */
  function OfJob(docs: seq<RecordDoc>, job: ObjectId): (r: seq<RecordDoc>)
    ensures forall d :: d in r <==> d in docs && d.uploadJobId == job
    ensures |r| <= |docs|
  {
    if docs == [] then []
    else
      var prev := OfJob(docs[..|docs| - 1], job);
      var d := docs[|docs| - 1];
      assert docs == docs[..|docs| - 1] + [d];
      if d.uploadJobId == job then prev + [d] else prev
  }

  /** The record collection as `createRecords` fills it. */
  class RecordService {
    var stored: seq<RecordDoc>

    constructor()
      ensures stored == []
    {
      stored := [];
    }

    /** `createRecords`: the chunk loop, with `chunkSize` from the configuration. */
    method CreateRecords(uploadJobId: ObjectId, rows: seq<FileParser.Row>, chunkSize: nat,
                         insert: (nat, seq<RecordDoc>) -> InsertOutcome) returns (created: nat, errors: nat)
      requires chunkSize > 0
      modifies this
      ensures var t := Ingest(uploadJobId, Chunks(rows, chunkSize), insert);
              created == t.created && errors == t.errors && stored == old(stored) + t.added
    {
      created, errors := 0, 0;
      ghost var done: seq<seq<FileParser.Row>> := [];
      ghost var rest := rows;
      ghost var t := Tally(0, 0, []);
      var i, k := 0, 0;
      while i < |rows|
        invariant k == |done|
        invariant i < |rows| ==> rest == rows[i..]
        invariant i >= |rows| ==> rest == []
        invariant Chunks(rows, chunkSize) == done + Chunks(rest, chunkSize)
        invariant t == Ingest(uploadJobId, done, insert)
        invariant created == t.created && errors == t.errors && stored == old(stored) + t.added
        decreases |rows| - i
      {
        var end := if i + chunkSize <= |rows| then i + chunkSize else |rows|;
        var chunk := rows[i..end];
        var docs := Docs(uploadJobId, chunk);
        var outcome := insert(k, docs);
        LoopStep(uploadJobId, rows, chunkSize, insert, done, i);
        ChunkStepShift(t, docs, outcome);
        ghost var before := stored;
        var inserted, failed := StoreChunk(docs, outcome);
        created, errors := created + inserted, errors + failed;
        AppendAssoc(old(stored), t.added, stored[|before|..]);
        t := ChunkStep(t, docs, outcome);
        done := done + [chunk];
        rest := if end < |rows| then rows[end..] else [];
        i, k := i + chunkSize, k + 1;
      }
      assert done == Chunks(rows, chunkSize);
    }

    /** The `try`/`catch` around one `insertMany`: stores what the database accepted and returns how many
        rows were created and how many failed. */
    method StoreChunk(docs: seq<RecordDoc>, outcome: InsertOutcome) returns (inserted: nat, failed: nat)
      modifies this
      ensures var t := ChunkStep(Tally(0, 0, []), docs, outcome);
              inserted == t.created && failed == t.errors && stored == old(stored) + t.added
    {
      match outcome {
        case Inserted =>
          stored := stored + docs;
          inserted, failed := |docs|, 0;
        case WriteErrors(rejected) =>
          var bad := |Rejected(rejected, |docs|)|;
          stored := stored + Kept(docs, rejected);
          inserted, failed := |docs| - bad, bad;
        case OtherError =>
          inserted, failed := 0, |docs|;
      }
    }

    /** `getRecordsByUploadJobId`: exactly the stored documents of that job. */
    function GetRecordsByUploadJobId(uploadJobId: ObjectId): (r: seq<RecordDoc>)
      reads this
      ensures forall d :: d in r <==> d in stored && d.uploadJobId == uploadJobId
    {
      OfJob(stored, uploadJobId)
    }
  }

  /** A stored document of a parsed row carries the row's computed transaction id, reference number and
      source system: the spread of the columns never replaces them. */
  lemma ParsedRowDoc(job: ObjectId, data: FileParser.Entries, host: FileParser.Host)
    ensures var n := FileParser.NormalizedOf(data);
            var r := FileParser.RowOf(data, host);
            r.Success? ==>
              && DocOf(job, r.value).transactionId == Str(Text.Trim(host.text(FileParser.TransactionIdOf(n))))
              && DocOf(job, r.value).referenceNumber == Str(Text.Trim(host.text(FileParser.ReferenceOf(n))))
              && DocOf(job, r.value).sourceSystem == FileParser.OptionalText(FileParser.SourceSystemOf(n), host)
              && DocOf(job, r.value).metadata == r.value
  {
    FileParser.CamelCaseFieldsSurvive(data, host);
    FileParser.ParsedRowKeys(FileParser.NormalizedOf(data), host);
  }
}
