/**
 * The response cleaning of `generate_questions`: each generated response is
 * split into lines, each line trimmed to its alphabetic bounds, lines without
 * letters dropped, and the list cut down to its last `questions_per_chunk`
 * entries; the cleaned lists are paired with the chunks they came from.
 */
module Questions {
  import opened Common
  import opened Text
  import opened Strip
  import opened Chunker

  /** Python `s[start:]`, where a negative start counts from the end. */
  function PySliceFrom<T>(s: seq<T>, start: int): seq<T>
  {
    if start >= 0 then s[Min(start, |s|)..]
    else if |s| + start >= 0 then s[|s| + start..]
    else s
  }

  /** The truncation as written: `if len(q) > k: q = q[-k:]`. */
  function TruncateAsWritten(queries: seq<string>, k: int): seq<string>
  {
    if |queries| > k then PySliceFrom(queries, -k) else queries
  }

  /** With `k == 0` the slice `q[-0:]` is `q[0:]`, so nothing is cut at all. */
  lemma TruncateAsWrittenKeepsAllAtZero(queries: seq<string>)
    ensures TruncateAsWritten(queries, 0) == queries
  {
  }

  /** Concretely: one question survives where none was asked for. */
  lemma TruncateAsWrittenOverflows()
    ensures |TruncateAsWritten(["What is Raft?"], 0)| == 1 > 0
  {
    TruncateAsWrittenKeepsAllAtZero(["What is Raft?"]);
  }

  /** The evident intent: keep only the last `k` entries. */
  function KeepLast(queries: seq<string>, k: nat): (r: seq<string>)
    ensures |r| == Min(|queries|, k)
    ensures r == queries[|queries| - |r|..]
  {
    if |queries| > k then queries[|queries| - k..] else queries
  }

  /** For every positive count the intended truncation is the written one. */
  lemma KeepLastAgreesAboveZero(queries: seq<string>, k: nat)
    requires k >= 1
    ensures KeepLast(queries, k) == TruncateAsWritten(queries, k)
  {
  }

  /** Python `[strip_str(q) for q in queries]`. */
  function StripLines(lines: seq<string>): seq<string>
  {
    seq(|lines|, k requires 0 <= k < |lines| => StripStr(lines[k]))
  }

  /** Python `[q for q in queries if any(c.isalpha() for c in q)]`. */
  function WithLetters(lines: seq<string>): (kept: seq<string>)
    ensures |kept| <= |lines|
    ensures forall k :: 0 <= k < |kept| ==> HasLetter(kept[k])
  {
    if lines == [] then []
    else
      var last := lines[|lines| - 1];
      WithLetters(lines[..|lines| - 1]) + (if HasLetter(last) then [last] else [])
  }

  /** The filtered keeps exactly the lines that have a letter. */
  lemma {:induction false} WithLettersMembership(lines: seq<string>, q: string)
    ensures q in WithLetters(lines) <==> q in lines && HasLetter(q)
  {
    if lines != [] {
      var n := |lines| - 1;
      assert lines == lines[..n] + [lines[n]];
      WithLettersMembership(lines[..n], q);
    }
  }

  /** The stripped lines of a response that contain a letter, before truncation. */
  function Candidates(response: string): seq<string>
  {
    WithLetters(StripLines(Split(response, '\n')))
  }

  /** Every candidate is the stripped form of a response line that has a letter. */
  lemma CandidateSource(response: string, q: string) returns (k: nat)
    requires q in Candidates(response)
    ensures k < |Split(response, '\n')|
    ensures StripStr(Split(response, '\n')[k]) == q && HasLetter(Split(response, '\n')[k])
  {
    var lines := Split(response, '\n');
    var stripped := StripLines(lines);
    WithLettersMembership(stripped, q);
    k :| 0 <= k < |stripped| && stripped[k] == q;
    StripKeepsLetters(lines[k]);
  }

  /** Every response line that has a letter contributes its stripped form. */
  lemma CandidateFromLine(response: string, k: nat)
    requires k < |Split(response, '\n')| && HasLetter(Split(response, '\n')[k])
    ensures StripStr(Split(response, '\n')[k]) in Candidates(response)
  {
    var lines := Split(response, '\n');
    var stripped := StripLines(lines);
    StripKeepsLetters(lines[k]);
    assert stripped[k] == StripStr(lines[k]);
    WithLettersMembership(stripped, stripped[k]);
  }

  /** The question list kept for one response. */
  function CleanResponse(response: string, questionsPerChunk: nat): (qs: seq<string>)
    ensures |qs| == Min(|Candidates(response)|, questionsPerChunk)
    ensures forall k :: 0 <= k < |qs| ==> HasLetter(qs[k])
    ensures qs == Candidates(response)[|Candidates(response)| - |qs|..]
  {
    KeepLast(Candidates(response), questionsPerChunk)
  }

  /** One pass of the response loop: split, `strip_str` each line, keep lines with letters, truncate. */
  method CleanOne(response: string, questionsPerChunk: nat) returns (queries: seq<string>)
    ensures queries == CleanResponse(response, questionsPerChunk)
  {
    queries := Split(response, '\n');
    queries := StripLines(queries);
    queries := WithLetters(queries);
    queries := KeepLast(queries, questionsPerChunk);
  }

  /** The loop over responses that fills `final_result`, then the zip with the chunks. */
  method PairQuestions(chunks: seq<string>, answers: seq<string>, questionsPerChunk: nat)
    returns (pairs: seq<(string, seq<string>)>)
    ensures |pairs| == Min(|chunks|, |answers|)
    ensures forall j :: 0 <= j < |pairs| ==> pairs[j] == (chunks[j], CleanResponse(answers[j], questionsPerChunk))
  {
    if |answers| == 0 {
      return [];
    }
    var finalResult: seq<seq<string>> := [];
    for i := 0 to |answers|
      invariant |finalResult| == i
      invariant forall j :: 0 <= j < i ==> finalResult[j] == CleanResponse(answers[j], questionsPerChunk)
    {
      var queries := CleanOne(answers[i], questionsPerChunk);
      finalResult := finalResult + [queries];
    }
    pairs := Zip(chunks, finalResult);
  }

  /** `question_prompt_template.format(...)` for every chunk. */
  function QuestionPrompts(chunks: seq<string>, questionsPerChunk: nat,
                           questionPrompt: (nat, string) -> string): seq<string>
  {
    seq(|chunks|, j requires 0 <= j < |chunks| => questionPrompt(questionsPerChunk, chunks[j]))
  }

  /**
   * `generate_questions` from the document text on: chunking, one batched
   * generation call over the prompts, and the pairing of cleaned responses.
   */
  method GenerateQuestions(documentText: string, chunkSize: int, questionsPerChunk: nat,
                           splitter: (string, int) -> seq<string>,
                           questionPrompt: (nat, string) -> string,
                           batch: seq<string> -> seq<string>)
    returns (r: Result<seq<(string, seq<string>)>, ChunkError>)
    ensures r.Err? <==> GetChunks(documentText, chunkSize, splitter).Err?
    ensures r.Err? ==> r.error == GetChunks(documentText, chunkSize, splitter).error
    ensures r.Ok? ==>
              var chunks := GetChunks(documentText, chunkSize, splitter).value;
              var answers := batch(QuestionPrompts(chunks, questionsPerChunk, questionPrompt));
              |r.value| == Min(|chunks|, |answers|)
              && forall j :: 0 <= j < |r.value| ==>
                   r.value[j] == (chunks[j], CleanResponse(answers[j], questionsPerChunk))
  {
    var documentBatches := GetChunks(documentText, chunkSize, splitter);
    if documentBatches.Err? {
      return Err(documentBatches.error);
    }
    var allTasks := QuestionPrompts(documentBatches.value, questionsPerChunk, questionPrompt);
    var generatedAnswers := batch(allTasks);
    var pairs := PairQuestions(documentBatches.value, generatedAnswers, questionsPerChunk);
    r := Ok(pairs);
  }
}
