/**
 * `add_chunk_to_dataset`: for every (chunk, question, answer) triple, sample
 * distractor chunks, keep or replace the oracle chunk, shuffle the documents,
 * render the instruction and append one record to the growing dataset.
 * The random source is replaced by explicit draws, one `Draw` per triple.
 */
module Assembly {
  import opened Common
  import opened Text
  import opened Cot

  /** The `context` dict: `title` and `sentences` each hold one inner list. */
  datatype Context = Context(title: seq<seq<string>>, sentences: seq<seq<string>>)

  /** One row of the dataset; `kind` is the `type` column. */
  datatype Record = Record(id: string, kind: string, question: string, context: Context,
                           oracleContext: string, cotAnswer: string, instruction: string)

  /**
   * The random choices for one record: `picks` are the positions in the
   * index pool that `random.sample(indices, num_distract)` returns, in order;
   * `keepOracle` is `random.uniform(0, 1) < p`; `replacement` is the pool
   * position of `random.sample(indices, 1)`; `swaps` are the draws of
   * `random.shuffle`, which swaps position `n-1-k` with `swaps[k]`.
   */
  datatype Draw = Draw(picks: seq<nat>, keepOracle: bool, replacement: nat, swaps: seq<nat>)

  /** The `ValueError`s of `list.index` and of `random.sample`. */
  datatype AssemblyError = ChunkNotFound | SampleLargerThanPopulation

  type Dataset = Option<seq<Record>>

  predicate Distinct<T(==)>(s: seq<T>)
  {
    forall a, b :: 0 <= a < b < |s| ==> s[a] != s[b]
  }

  /** `chunks.index(chunk)`: the first position holding `chunk`, if any. */
  function IndexOf(chunks: seq<string>, chunk: string): (r: Option<nat>)
    ensures r.None? <==> chunk !in chunks
    ensures r.Some? ==> r.value < |chunks| && chunks[r.value] == chunk
  {
    if chunks == [] then None
    else if chunks[0] == chunk then Some(0)
    else match IndexOf(chunks[1..], chunk)
      case None => None
      case Some(k) => Some(k + 1)
  }

  /** The position found is the first one holding the chunk. */
  lemma {:induction false} IndexOfFirst(chunks: seq<string>, chunk: string, k: nat)
    requires IndexOf(chunks, chunk).Some? && k < IndexOf(chunks, chunk).value
    ensures chunks[k] != chunk
  {
    if k > 0 {
      IndexOfFirst(chunks[1..], chunk, k - 1);
    }
  }

  /** `list(range(0, n))`. */
  function Range(n: nat): seq<nat>
  {
    seq(n, k requires 0 <= k < n => k)
  }

  /** Python `list.remove(x)`: drops the first occurrence of `x`. */
  function RemoveFirst(s: seq<nat>, x: nat): seq<nat>
    requires x in s
  {
    if s[0] == x then s[1..] else [s[0]] + RemoveFirst(s[1..], x)
  }

  lemma {:induction false} RemoveFirstAt(s: seq<nat>, x: nat, idx: nat)
    requires idx < |s| && s[idx] == x && x !in s[..idx]
    ensures RemoveFirst(s, x) == s[..idx] + s[idx + 1..]
  {
    assert idx > 0 ==> s[0] in s[..idx];
    if s[0] != x {
      assert idx > 0 && s[1..][idx - 1] == x;
      assert s[1..][..idx - 1] == s[..idx][1..];
      RemoveFirstAt(s[1..], x, idx - 1);
      assert s[1..][idx..] == s[idx + 1..];
      assert s[..idx] == [s[0]] + s[1..][..idx - 1];
    } else {
      assert s[..idx] + s[idx + 1..] == s[1..];
    }
  }

  /** `indices = list(range(0, len(chunks))); indices.remove(i)`. */
  function Pool(n: nat, i: nat): seq<nat>
    requires i < n
  {
    assert Range(n)[i] == i;
    RemoveFirst(Range(n), i)
  }

  /** The pool lists every index below `n` except `i`, in increasing order. */
  lemma PoolAt(n: nat, i: nat)
    requires i < n
    ensures |Pool(n, i)| == n - 1
    ensures forall k :: 0 <= k < n - 1 ==> Pool(n, i)[k] == if k < i then k else k + 1
  {
    RemoveFirstAt(Range(n), i, i);
  }

  /** The draws of `random.shuffle` on a list of length `len`: one per position from the end down to 1. */
  predicate ValidSwaps(swaps: seq<nat>, len: nat)
  {
    |swaps| == (if len == 0 then 0 else len - 1)
    && forall k :: 0 <= k < |swaps| ==> swaps[k] <= len - 1 - k
  }

  /** Draws that `random` could have produced for a pool of `n - 1` indices. */
  predicate ValidDraw(d: Draw, numDistract: int, n: nat)
  {
    (0 <= numDistract <= n - 1 ==>
       |d.picks| == numDistract && Distinct(d.picks)
       && forall j :: 0 <= j < |d.picks| ==> d.picks[j] < n - 1)
    && (!d.keepOracle && n >= 2 ==> d.replacement < n - 1)
    && (numDistract >= 0 ==> ValidSwaps(d.swaps, numDistract + 1))
  }

  /** Whether `random.sample` raises for this record. */
  predicate SampleFails(numDistract: int, n: nat, keepOracle: bool)
  {
    numDistract < 0 || numDistract > n - 1 || (!keepOracle && n - 1 == 0)
  }

  /** `random.shuffle`: swap the last unplaced position with a drawn one, from the end. */
  function Shuffle(s: seq<string>, swaps: seq<nat>): (r: seq<string>)
    requires ValidSwaps(swaps, |s|)
    ensures |r| == |s|
    decreases |s|
  {
    if |s| <= 1 then s
    else
      var i := |s| - 1;
      var j := swaps[0];
      var t := s[i := s[j]][j := s[i]];
      Shuffle(t[..i], swaps[1..]) + [t[i]]
  }

  /** Shuffling only reorders: the multiset of documents is unchanged. */
  lemma {:induction false} ShufflePermutes(s: seq<string>, swaps: seq<nat>)
    requires ValidSwaps(swaps, |s|)
    ensures multiset(Shuffle(s, swaps)) == multiset(s)
    decreases |s|
  {
    if |s| > 1 {
      var i := |s| - 1;
      var j := swaps[0];
      var t := s[i := s[j]][j := s[i]];
      assert multiset(t) == multiset(s);
      ShufflePermutes(t[..i], swaps[1..]);
      assert t == t[..i] + [t[i]];
    }
  }

  /** The chunks at the sampled pool positions, in sampling order. */
  function DistractorDocs(chunks: seq<string>, pool: seq<nat>, picks: seq<nat>): (docs: seq<string>)
    requires forall j :: 0 <= j < |picks| ==> picks[j] < |pool| && pool[picks[j]] < |chunks|
    ensures |docs| == |picks|
  {
    if picks == [] then []
    else
      var n := |picks| - 1;
      DistractorDocs(chunks, pool, picks[..n]) + [chunks[pool[picks[n]]]]
  }

  /** Distractor `j` is the chunk at the `j`-th sampled pool position. */
  lemma {:induction false} DistractorDocsAt(chunks: seq<string>, pool: seq<nat>, picks: seq<nat>, j: nat)
    requires forall t :: 0 <= t < |picks| ==> picks[t] < |pool| && pool[picks[t]] < |chunks|
    requires j < |picks|
    ensures DistractorDocs(chunks, pool, picks)[j] == chunks[pool[picks[j]]]
  {
    var n := |picks| - 1;
    if j < n {
      DistractorDocsAt(chunks, pool, picks[..n], j);
    }
  }

  /** The chunk indices of the distractors. */
  function DistractorIndices(n: nat, i: nat, picks: seq<nat>): seq<nat>
    requires i < n
    requires forall j :: 0 <= j < |picks| ==> picks[j] < n - 1
  {
    PoolAt(n, i);
    seq(|picks|, j requires 0 <= j < |picks| => Pool(n, i)[picks[j]])
  }

  /** Distinct pool positions give distinct chunk indices, none of them `i`. */
  lemma DistractorIndicesValid(n: nat, i: nat, picks: seq<nat>)
    requires i < n
    requires Distinct(picks) && forall j :: 0 <= j < |picks| ==> picks[j] < n - 1
    ensures |DistractorIndices(n, i, picks)| == |picks|
    ensures Distinct(DistractorIndices(n, i, picks))
    ensures forall j :: 0 <= j < |picks| ==>
              DistractorIndices(n, i, picks)[j] < n && DistractorIndices(n, i, picks)[j] != i
  {
    PoolAt(n, i);
  }

  /** `docs` before the shuffle: the oracle (or its stand-in) first, then the distractors. */
  function CandidateDocs(chunks: seq<string>, i: nat, numDistract: nat, d: Draw): (docs: seq<string>)
    requires i < |chunks| && numDistract <= |chunks| - 1
    requires ValidDraw(d, numDistract, |chunks|)
    requires d.keepOracle || |chunks| >= 2
    ensures |docs| == numDistract + 1
  {
    PoolAt(|chunks|, i);
    var pool := Pool(|chunks|, i);
    var docs := [chunks[i]] + DistractorDocs(chunks, pool, d.picks);
    if d.keepOracle then docs else docs[0 := chunks[pool[d.replacement]]]
  }

  /**
   * Position 0 before the shuffle holds the oracle chunk when it is kept, and
   * otherwise the chunk at some other index, drawn from the pool.
   */
  lemma CandidateOracle(chunks: seq<string>, i: nat, numDistract: nat, d: Draw)
    requires i < |chunks| && numDistract <= |chunks| - 1
    requires ValidDraw(d, numDistract, |chunks|)
    requires d.keepOracle || |chunks| >= 2
    ensures d.keepOracle ==> CandidateDocs(chunks, i, numDistract, d)[0] == chunks[i]
    ensures !d.keepOracle ==>
              exists x :: 0 <= x < |chunks| && x != i && CandidateDocs(chunks, i, numDistract, d)[0] == chunks[x]
  {
    PoolAt(|chunks|, i);
    if !d.keepOracle {
      var x := Pool(|chunks|, i)[d.replacement];
      assert x < |chunks| && x != i;
      assert CandidateDocs(chunks, i, numDistract, d)[0] == chunks[x];
    }
  }

  /** The documents, each wrapped in `<DOCUMENT>` tags, in order. */
  function Wrapped(docs: seq<string>): string
  {
    if docs == [] then []
    else Wrapped(docs[..|docs| - 1]) + Wrap(docs[|docs| - 1])
  }

  /** One document between the `<DOCUMENT>` tags, followed by a newline. */
  function Wrap(doc: string): string
  {
    "<DOCUMENT>" + doc + "</DOCUMENT>\n"
  }

  /** The `instruction`: the wrapped documents followed by the question. */
  function Instruction(docs: seq<string>, question: string): string
  {
    Wrapped(docs) + question
  }

  lemma {:induction false} WrappedConcat(a: seq<string>, b: seq<string>)
    ensures Wrapped(a + b) == Wrapped(a) + Wrapped(b)
    decreases |b|
  {
    if b != [] {
      var n := |b| - 1;
      assert (a + b)[..|a + b| - 1] == a + b[..n];
      assert (a + b)[|a + b| - 1] == b[n];
      WrappedConcat(a, b[..n]);
      assert Wrapped(b) == Wrapped(b[..n]) + Wrap(b[n]);
    } else {
      assert a + b == a;
    }
  }

  /** Document `k` appears wrapped, after the wrapped documents before it and before those after it. */
  lemma {:induction false} WrappedAt(docs: seq<string>, k: nat)
    requires k < |docs|
    ensures Wrapped(docs) == Wrapped(docs[..k]) + Wrap(docs[k]) + Wrapped(docs[k + 1..])
  {
    assert docs == docs[..k] + [docs[k]] + docs[k + 1..];
    WrappedConcat(docs[..k] + [docs[k]], docs[k + 1..]);
    WrappedConcat(docs[..k], [docs[k]]);
  }

  /** `f"seed_task_{n}"`. */
  function SeedTaskId(n: nat): string
  {
    "seed_task_" + NatToString(n)
  }

  /** Distinct row counts give distinct ids. */
  lemma SeedTaskIdInjective(m: nat, n: nat)
    requires SeedTaskId(m) == SeedTaskId(n)
    ensures m == n
  {
    var p := "seed_task_";
    assert SeedTaskId(m)[|p|..] == NatToString(m);
    assert SeedTaskId(n)[|p|..] == NatToString(n);
    NatToStringInjective(m, n);
  }

  const PlaceholderTitle: string := "placeholder_title"

  /** `["placeholder_title"] * count`. */
  function Placeholders(count: nat): seq<string>
  {
    seq(count, k requires 0 <= k < count => PlaceholderTitle)
  }

  /** The record built for one triple, or the error Python raises on the way. */
  function BuildRecord(chunks: seq<string>, chunk: string, question: string, cot: string,
                       rowCount: nat, numDistract: int, d: Draw): Result<Record, AssemblyError>
    requires ValidDraw(d, numDistract, |chunks|)
  {
    match IndexOf(chunks, chunk)
    case None => Err(ChunkNotFound)
    case Some(i) =>
      if SampleFails(numDistract, |chunks|, d.keepOracle) then Err(SampleLargerThanPopulation)
      else
        var docs := Shuffle(CandidateDocs(chunks, i, numDistract, d), d.swaps);
        Ok(Record(SeedTaskId(rowCount), "general", question,
                  Context([Placeholders(numDistract + 1)], [docs]),
                  chunk, cot, Instruction(docs, question)))
  }

  /**
   * Building fails with `ChunkNotFound` exactly when the chunk is not among
   * the chunks, and with the sampling error exactly when it is but sampling
   * raises.
   */
  lemma BuildRecordErrors(chunks: seq<string>, chunk: string, question: string, cot: string,
                          rowCount: nat, numDistract: int, d: Draw)
    requires ValidDraw(d, numDistract, |chunks|)
    ensures var r := BuildRecord(chunks, chunk, question, cot, rowCount, numDistract, d);
            (r == Err(ChunkNotFound) <==> chunk !in chunks)
            && ((r == Err(SampleLargerThanPopulation))
                == (chunk in chunks && SampleFails(numDistract, |chunks|, d.keepOracle)))
  {
  }

  /**
   * A built record has the field values the source assigns, one placeholder
   * title and one document per candidate, and an instruction over the
   * shuffled documents, which are a reordering of the candidates.
   */
  lemma RecordShape(chunks: seq<string>, chunk: string, question: string, cot: string,
                    rowCount: nat, numDistract: int, d: Draw)
    requires ValidDraw(d, numDistract, |chunks|)
    requires BuildRecord(chunks, chunk, question, cot, rowCount, numDistract, d).Ok?
    ensures chunk in chunks && 0 <= numDistract <= |chunks| - 1
    ensures d.keepOracle || |chunks| >= 2
    ensures var rec := BuildRecord(chunks, chunk, question, cot, rowCount, numDistract, d).value;
            var docs := rec.context.sentences[0];
            rec.id == SeedTaskId(rowCount) && rec.kind == "general" && rec.question == question
            && rec.oracleContext == chunk && rec.cotAnswer == cot
            && |rec.context.title| == 1 && |rec.context.title[0]| == numDistract + 1
            && (forall t :: 0 <= t < |rec.context.title[0]| ==> rec.context.title[0][t] == PlaceholderTitle)
            && |rec.context.sentences| == 1 && |docs| == numDistract + 1
            && rec.instruction == Instruction(docs, question)
            && multiset(docs)
               == multiset(CandidateDocs(chunks, IndexOf(chunks, chunk).value, numDistract, d))
  {
    var i := IndexOf(chunks, chunk).value;
    ShufflePermutes(CandidateDocs(chunks, i, numDistract, d), d.swaps);
  }

  /**
   * The distractors are the chunks at `num_distract` distinct indices, none
   * of them the oracle's index.
   */
  lemma DistractorsFromOtherChunks(chunks: seq<string>, chunk: string, numDistract: int, d: Draw)
    requires ValidDraw(d, numDistract, |chunks|)
    requires chunk in chunks && !SampleFails(numDistract, |chunks|, d.keepOracle)
    ensures var i := IndexOf(chunks, chunk).value;
            var idx := DistractorIndices(|chunks|, i, d.picks);
            var docs := CandidateDocs(chunks, i, numDistract, d);
            |idx| == numDistract && Distinct(idx)
            && (forall j :: 0 <= j < |idx| ==> idx[j] < |chunks| && idx[j] != i && docs[j + 1] == chunks[idx[j]])
  {
    var i := IndexOf(chunks, chunk).value;
    DistractorIndicesValid(|chunks|, i, d.picks);
    PoolAt(|chunks|, i);
    forall j | 0 <= j < |d.picks|
      ensures CandidateDocs(chunks, i, numDistract, d)[j + 1] == chunks[DistractorIndices(|chunks|, i, d.picks)[j]]
    {
      DistractorDocsAt(chunks, Pool(|chunks|, i), d.picks, j);
    }
  }

  /** When the oracle is kept, the shuffled documents contain the chunk. */
  lemma OracleKept(chunks: seq<string>, chunk: string, question: string, cot: string,
                   rowCount: nat, numDistract: int, d: Draw)
    requires ValidDraw(d, numDistract, |chunks|) && d.keepOracle
    requires BuildRecord(chunks, chunk, question, cot, rowCount, numDistract, d).Ok?
    ensures chunk in BuildRecord(chunks, chunk, question, cot, rowCount, numDistract, d).value.context.sentences[0]
  {
    RecordShape(chunks, chunk, question, cot, rowCount, numDistract, d);
    var i := IndexOf(chunks, chunk).value;
    var docs := CandidateDocs(chunks, i, numDistract, d);
    assert docs[0] == chunk;
    assert chunk in multiset(docs);
  }

  /**
   * When the oracle is replaced and the chunks are distinct, the chunk is in
   * none of the documents: the stand-in and the distractors all come from
   * other indices.
   */
  lemma OracleDropped(chunks: seq<string>, chunk: string, question: string, cot: string,
                      rowCount: nat, numDistract: int, d: Draw)
    requires ValidDraw(d, numDistract, |chunks|) && !d.keepOracle && Distinct(chunks)
    requires BuildRecord(chunks, chunk, question, cot, rowCount, numDistract, d).Ok?
    ensures CandidateDocs(chunks, IndexOf(chunks, chunk).value, numDistract, d)[0] != chunk
    ensures chunk !in BuildRecord(chunks, chunk, question, cot, rowCount, numDistract, d).value.context.sentences[0]
  {
    RecordShape(chunks, chunk, question, cot, rowCount, numDistract, d);
    CandidatesAvoidChunk(chunks, chunk, numDistract, d);
    var docs := CandidateDocs(chunks, IndexOf(chunks, chunk).value, numDistract, d);
    assert chunk !in multiset(docs);
  }

  /** With the oracle replaced and distinct chunks, no candidate document is the chunk. */
  lemma CandidatesAvoidChunk(chunks: seq<string>, chunk: string, numDistract: int, d: Draw)
    requires ValidDraw(d, numDistract, |chunks|) && !d.keepOracle && Distinct(chunks)
    requires chunk in chunks && !SampleFails(numDistract, |chunks|, d.keepOracle)
    ensures var docs := CandidateDocs(chunks, IndexOf(chunks, chunk).value, numDistract, d);
            chunk !in docs
  {
    DistractorsFromOtherChunks(chunks, chunk, numDistract, d);
    var i := IndexOf(chunks, chunk).value;
    var docs := CandidateDocs(chunks, i, numDistract, d);
    PoolAt(|chunks|, i);
    var pool := Pool(|chunks|, i);
    var idx := DistractorIndices(|chunks|, i, d.picks);
    forall k | 0 <= k < |docs| ensures docs[k] != chunk {
      var x := if k == 0 then pool[d.replacement] else idx[k - 1];
      assert x < |chunks| && x != i && docs[k] == chunks[x];
    }
  }

  /** `for j in random.sample(indices, num_distract): docs.append(chunks[j])`. */
  method AppendDistractors(docs: seq<string>, chunks: seq<string>, indices: seq<nat>, picks: seq<nat>)
    returns (docs': seq<string>)
    requires forall j :: 0 <= j < |picks| ==> picks[j] < |indices| && indices[picks[j]] < |chunks|
    ensures docs' == docs + DistractorDocs(chunks, indices, picks)
  {
    docs' := docs;
    for j := 0 to |picks|
      invariant docs' == docs + DistractorDocs(chunks, indices, picks[..j])
    {
      assert picks[..j + 1][..j] == picks[..j];
      docs' := docs' + [chunks[indices[picks[j]]]];
    }
    assert picks[..|picks|] == picks;
  }

  /** The loop that accumulates the instruction with `+=`, then the question. */
  method RenderInstruction(docs: seq<string>, question: string) returns (context: string)
    ensures context == Instruction(docs, question)
  {
    context := "";
    for k := 0 to |docs|
      invariant context == Wrapped(docs[..k])
    {
      assert docs[..k + 1][..k] == docs[..k];
      context := context + Wrap(docs[k]);
    }
    assert docs[..|docs|] == docs;
    context := context + question;
  }

  /** The body of the per-triple loop of `add_chunk_to_dataset`, step by step. */
  method AssembleRecord(chunks: seq<string>, chunk: string, question: string, cot: string,
                        rowCount: nat, numDistract: int, d: Draw)
    returns (r: Result<Record, AssemblyError>)
    requires ValidDraw(d, numDistract, |chunks|)
    ensures r == BuildRecord(chunks, chunk, question, cot, rowCount, numDistract, d)
  {
    var found := IndexOf(chunks, chunk);
    if found.None? {
      return Err(ChunkNotFound);
    }
    var i := found.value;
    var id := SeedTaskId(rowCount);
    var docs := [chunk];
    var indices := Range(|chunks|);
    assert indices[i] == i;
    indices := RemoveFirst(indices, i);
    PoolAt(|chunks|, i);
    if numDistract < 0 || numDistract > |indices| {
      return Err(SampleLargerThanPopulation);
    }
    docs := AppendDistractors(docs, chunks, indices, d.picks);
    var oracle := d.keepOracle;
    if !oracle {
      if |indices| == 0 {
        return Err(SampleLargerThanPopulation);
      }
      docs := docs[0 := chunks[indices[d.replacement]]];
    }
    assert docs == CandidateDocs(chunks, i, numDistract, d);
    docs := Shuffle(docs, d.swaps);
    var title := [Placeholders(numDistract + 1)];
    var sentences := [docs];
    var context := RenderInstruction(docs, question);
    r := Ok(Record(id, "general", question, Context(title, sentences), chunk, cot, context));
  }

  /** The rows of the dataset; `None` stands for `ds` not yet created. */
  function Rows(ds: Dataset): seq<Record>
  {
    if ds.None? then [] else ds.value
  }

  /**
   * Appending one record: `Dataset.from_dict` when `not ds` (no dataset, or
   * one with no rows), `ds.add_item` otherwise.
   */
  function AppendRecord(ds: Dataset, rec: Record): (ds': Dataset)
    ensures ds'.Some? && Rows(ds') == Rows(ds) + [rec]
  {
    if ds.None? || |ds.value| == 0 then Some([rec]) else Some(ds.value + [rec])
  }

  /** Row `k` carries the id `seed_task_k`. */
  predicate SequentialIds(rows: seq<Record>)
  {
    forall k :: 0 <= k < |rows| ==> rows[k].id == SeedTaskId(k)
  }

  /** Sequential ids are pairwise distinct. */
  lemma SequentialIdsUnique(rows: seq<Record>)
    requires SequentialIds(rows)
    ensures forall a, b :: 0 <= a < b < |rows| ==> rows[a].id != rows[b].id
  {
    forall a, b | 0 <= a < b < |rows| ensures rows[a].id != rows[b].id {
      if rows[a].id == rows[b].id {
        SeedTaskIdInjective(a, b);
      }
    }
  }

  /** `chunks = [chunk for chunk, _ in chunk_questions_zip]`. */
  function Chunks(pairs: seq<(string, seq<string>)>): seq<string>
  {
    seq(|pairs|, k requires 0 <= k < |pairs| => pairs[k].0)
  }

  /** Every triple's chunk is one of the chunks, so the index lookup never fails. */
  lemma TripleChunkKnown(pairs: seq<(string, seq<string>)>, answers: seq<string>, m: nat)
    requires m < |CotTriples(Flatten(pairs), answers)|
    ensures CotTriples(Flatten(pairs), answers)[m].0 in Chunks(pairs)
  {
    var k := FlattenSource(pairs, m);
    assert Chunks(pairs)[k] == pairs[k].0;
  }

  /**
   * The records `results[0 .. n-1]` in order, or the error of the first one
   * that could not be built: the per-triple loop, which stops at the first
   * exception.
   */
  function Collect(results: seq<Result<Record, AssemblyError>>, n: nat): Result<seq<Record>, AssemblyError>
    requires n <= |results|
  {
    if n == 0 then Ok([])
    else
      match Collect(results, n - 1)
      case Err(e) => Err(e)
      case Ok(rows) =>
        match results[n - 1]
        case Err(e) => Err(e)
        case Ok(rec) => Ok(rows + [rec])
  }

  /**
   * Collecting succeeds exactly when every record was built, and then row `k`
   * is record `k`; otherwise it fails with the first failing record's error.
   */
  lemma {:induction false} CollectAt(results: seq<Result<Record, AssemblyError>>, n: nat)
    requires n <= |results|
    ensures Collect(results, n).Ok? <==> forall k :: 0 <= k < n ==> results[k].Ok?
    ensures Collect(results, n).Ok? ==>
              |Collect(results, n).value| == n
              && forall k :: 0 <= k < n ==> results[k] == Ok(Collect(results, n).value[k])
    ensures Collect(results, n).Err? ==>
              exists k :: 0 <= k < n && results[k] == Err(Collect(results, n).error)
                          && forall j :: 0 <= j < k ==> results[j].Ok?
  {
    if n > 0 {
      CollectAt(results, n - 1);
      if Collect(results, n - 1).Ok? && results[n - 1].Ok? {
        var rows := Collect(results, n - 1).value;
        assert Collect(results, n).value == rows + [results[n - 1].value];
      }
    }
  }

  /** Once the first `m` records fail, collecting more fails with the same error. */
  lemma {:induction false} CollectPrefixErr(results: seq<Result<Record, AssemblyError>>, m: nat, n: nat)
    requires m <= n <= |results| && Collect(results, m).Err?
    ensures Collect(results, n) == Collect(results, m)
    decreases n - m
  {
    if m < n {
      CollectPrefixErr(results, m, n - 1);
    }
  }

  /** The outcome of building the record of every triple, triple `k` at row `base + k`. */
  function Results(chunks: seq<string>, triples: seq<(string, string, string)>, base: nat,
                   numDistract: int, draws: seq<Draw>): (results: seq<Result<Record, AssemblyError>>)
    requires |triples| <= |draws|
    requires forall k :: 0 <= k < |draws| ==> ValidDraw(draws[k], numDistract, |chunks|)
    ensures |results| == |triples|
  {
    if triples == [] then []
    else
      var n := |triples| - 1;
      Results(chunks, triples[..n], base, numDistract, draws)
      + [BuildRecord(chunks, triples[n].0, triples[n].1, triples[n].2, base + n, numDistract, draws[n])]
  }

  /** Outcome `k` is the record built for triple `k` at row `base + k`. */
  lemma {:induction false} ResultsAt(chunks: seq<string>, triples: seq<(string, string, string)>, base: nat,
                                     numDistract: int, draws: seq<Draw>, k: nat)
    requires |triples| <= |draws|
    requires forall j :: 0 <= j < |draws| ==> ValidDraw(draws[j], numDistract, |chunks|)
    requires k < |triples|
    ensures Results(chunks, triples, base, numDistract, draws)[k]
            == BuildRecord(chunks, triples[k].0, triples[k].1, triples[k].2, base + k, numDistract, draws[k])
  {
    var n := |triples| - 1;
    var init := Results(chunks, triples[..n], base, numDistract, draws);
    var last := BuildRecord(chunks, triples[n].0, triples[n].1, triples[n].2, base + n, numDistract, draws[n]);
    assert Results(chunks, triples, base, numDistract, draws) == init + [last];
    if k < n {
      ResultsAt(chunks, triples[..n], base, numDistract, draws, k);
      assert triples[..n][k] == triples[k];
    }
  }

  /**
   * Adding the triples' records fails exactly when sampling raises for one of
   * them (every chunk of a triple is a known chunk), and the error is then
   * the sampling error.
   */
  lemma CollectedFailsOnSampling(chunks: seq<string>, triples: seq<(string, string, string)>, base: nat,
                                 numDistract: int, draws: seq<Draw>)
    requires |triples| <= |draws|
    requires forall k :: 0 <= k < |draws| ==> ValidDraw(draws[k], numDistract, |chunks|)
    requires forall k :: 0 <= k < |triples| ==> triples[k].0 in chunks
    ensures var res := Collect(Results(chunks, triples, base, numDistract, draws), |triples|);
            (res.Err? == exists k :: 0 <= k < |triples| && SampleFails(numDistract, |chunks|, draws[k].keepOracle))
            && (res.Err? ==> res.error == SampleLargerThanPopulation)
  {
    var results := Results(chunks, triples, base, numDistract, draws);
    CollectAt(results, |triples|);
    forall k | 0 <= k < |triples| {
      ResultSampling(chunks, triples, base, numDistract, draws, k);
    }
  }

  /** Outcome `k` is an error exactly when its sampling raises. */
  lemma ResultSampling(chunks: seq<string>, triples: seq<(string, string, string)>, base: nat,
                       numDistract: int, draws: seq<Draw>, k: nat)
    requires |triples| <= |draws|
    requires forall j :: 0 <= j < |draws| ==> ValidDraw(draws[j], numDistract, |chunks|)
    requires k < |triples| && triples[k].0 in chunks
    ensures var b := Results(chunks, triples, base, numDistract, draws)[k];
            b.Err? == SampleFails(numDistract, |chunks|, draws[k].keepOracle)
            && (b.Err? ==> b.error == SampleLargerThanPopulation)
  {
    ResultsAt(chunks, triples, base, numDistract, draws, k);
    BuildRecordErrors(chunks, triples[k].0, triples[k].1, triples[k].2, base + k, numDistract, draws[k]);
  }

  /**
   * When adding succeeds, row `k` of the added rows is the record of triple
   * `k`: id `seed_task_<base + k>`, the triple's question, chunk and chain of
   * thought.
   */
  lemma CollectedRows(chunks: seq<string>, triples: seq<(string, string, string)>, base: nat,
                      numDistract: int, draws: seq<Draw>)
    requires |triples| <= |draws|
    requires forall k :: 0 <= k < |draws| ==> ValidDraw(draws[k], numDistract, |chunks|)
    ensures var res := Collect(Results(chunks, triples, base, numDistract, draws), |triples|);
            res.Ok? ==>
              |res.value| == |triples|
              && forall k :: 0 <= k < |triples| ==>
                   res.value[k].id == SeedTaskId(base + k) && res.value[k].question == triples[k].1
                   && res.value[k].oracleContext == triples[k].0 && res.value[k].cotAnswer == triples[k].2
  {
    var results := Results(chunks, triples, base, numDistract, draws);
    CollectAt(results, |triples|);
    if Collect(results, |triples|).Ok? {
      var rows := Collect(results, |triples|).value;
      forall k | 0 <= k < |triples|
        ensures rows[k].id == SeedTaskId(base + k) && rows[k].question == triples[k].1
                && rows[k].oracleContext == triples[k].0 && rows[k].cotAnswer == triples[k].2
      {
        ResultRow(chunks, triples, base, numDistract, draws, k);
      }
    }
  }

  /** A record built for triple `k` carries that triple's fields and row id. */
  lemma ResultRow(chunks: seq<string>, triples: seq<(string, string, string)>, base: nat,
                  numDistract: int, draws: seq<Draw>, k: nat)
    requires |triples| <= |draws|
    requires forall j :: 0 <= j < |draws| ==> ValidDraw(draws[j], numDistract, |chunks|)
    requires k < |triples|
    ensures var b := Results(chunks, triples, base, numDistract, draws)[k];
            b.Ok? ==>
              b.value.id == SeedTaskId(base + k) && b.value.question == triples[k].1
              && b.value.oracleContext == triples[k].0 && b.value.cotAnswer == triples[k].2
  {
    ResultsAt(chunks, triples, base, numDistract, draws, k);
    if Results(chunks, triples, base, numDistract, draws)[k].Ok? {
      RecordShape(chunks, triples[k].0, triples[k].1, triples[k].2, base + k, numDistract, draws[k]);
    }
  }

  /** Rows added after the existing rows continue a sequence of sequential ids. */
  lemma CollectedIdsContinue(chunks: seq<string>, triples: seq<(string, string, string)>,
                             numDistract: int, draws: seq<Draw>, existing: seq<Record>)
    requires |triples| <= |draws|
    requires forall k :: 0 <= k < |draws| ==> ValidDraw(draws[k], numDistract, |chunks|)
    requires SequentialIds(existing)
    ensures var res := Collect(Results(chunks, triples, |existing|, numDistract, draws), |triples|);
            res.Ok? ==> SequentialIds(existing + res.value)
  {
    CollectedRows(chunks, triples, |existing|, numDistract, draws);
    var res := Collect(Results(chunks, triples, |existing|, numDistract, draws), |triples|);
    if res.Ok? {
      SequentialIdsAppend(existing, res.value);
    }
  }

  /** Rows whose ids continue from `|existing|` extend a sequence of sequential ids. */
  lemma SequentialIdsAppend(existing: seq<Record>, rows: seq<Record>)
    requires SequentialIds(existing)
    requires forall k :: 0 <= k < |rows| ==> rows[k].id == SeedTaskId(|existing| + k)
    ensures SequentialIds(existing + rows)
  {
    forall k | 0 <= k < |existing + rows|
      ensures (existing + rows)[k].id == SeedTaskId(k)
    {
      if k >= |existing| {
        assert (existing + rows)[k] == rows[k - |existing|];
      }
    }
  }

  /** The loop body for triple `k`, whose record goes to row `rowCount`. */
  method AssembleAt(chunks: seq<string>, triples: seq<(string, string, string)>, base: nat,
                    numDistract: int, draws: seq<Draw>, k: nat, rowCount: nat)
    returns (r: Result<Record, AssemblyError>)
    requires |draws| >= |triples|
    requires forall j :: 0 <= j < |draws| ==> ValidDraw(draws[j], numDistract, |chunks|)
    requires k < |triples| && rowCount == base + k
    ensures r == Results(chunks, triples, base, numDistract, draws)[k]
  {
    var (chunk, q, cot) := triples[k];
    r := AssembleRecord(chunks, chunk, q, cot, rowCount, numDistract, draws[k]);
    ResultsAt(chunks, triples, base, numDistract, draws, k);
  }

  /** Builds and appends the record of every triple in turn, stopping at the first error. */
  method AssembleAll(chunks: seq<string>, triples: seq<(string, string, string)>, ds: Dataset,
                     numDistract: int, draws: seq<Draw>)
    returns (r: Result<Dataset, AssemblyError>)
    requires |draws| >= |triples|
    requires forall k :: 0 <= k < |draws| ==> ValidDraw(draws[k], numDistract, |chunks|)
    ensures Appended(ds, Collect(Results(chunks, triples, |Rows(ds)|, numDistract, draws), |triples|), r)
  {
    ghost var results := Results(chunks, triples, |Rows(ds)|, numDistract, draws);
    var cur := ds;
    for k := 0 to |triples|
      invariant Collect(results, k).Ok? && |Collect(results, k).value| == k
      invariant Rows(cur) == Rows(ds) + Collect(results, k).value
    {
      var datapt := AssembleAt(chunks, triples, |Rows(ds)|, numDistract, draws, k, |Rows(cur)|);
      if datapt.Err? {
        CollectPrefixErr(results, k + 1, |triples|);
        return Err(datapt.error);
      }
      cur := AppendRecord(cur, datapt.value);
    }
    r := Ok(cur);
  }

  /** `r` is the dataset `ds` with the collected rows appended, or the collecting error. */
  predicate Appended(ds: Dataset, collected: Result<seq<Record>, AssemblyError>, r: Result<Dataset, AssemblyError>)
  {
    match collected
    case Err(e) => r == Err(e)
    case Ok(rows) => r.Ok? && Rows(r.value) == Rows(ds) + rows
  }

  /**
   * `add_chunk_to_dataset`: generates the chains of thought, then appends one
   * record per (chunk, question, chain of thought) triple, ids continuing
   * from the current row count, or stops at the first error.
   */
  method AddChunkToDataset(pairs: seq<(string, seq<string>)>, cotPrompt: (string, string) -> string,
                           batch: seq<string> -> seq<string>, ds: Dataset, numDistract: int,
                           draws: seq<Draw>)
    returns (r: Result<Dataset, AssemblyError>)
    requires |draws| >= |Flatten(pairs)|
    requires forall k :: 0 <= k < |draws| ==> ValidDraw(draws[k], numDistract, |pairs|)
    ensures var triples := CotTriples(Flatten(pairs), CotAnswers(pairs, cotPrompt, batch));
            Appended(ds, Collect(Results(Chunks(pairs), triples, |Rows(ds)|, numDistract, draws), |triples|), r)
  {
    var cotResults := GenerateCot(pairs, cotPrompt, batch);
    r := AssembleAll(Chunks(pairs), cotResults, ds, numDistract, draws);
  }
}
