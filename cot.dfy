/**
 * `generate_COT`: flattens the (chunk, questions) pairs into one prompt per
 * question, chunk-major, sends them in one batch and zips the answers back
 * onto the (chunk, question) pairs by position.
 */
module Cot {
  import opened Common

  /** The (chunk, question) pairs of one chunk, in question order. */
  function Expand(pair: (string, seq<string>)): seq<(string, string)>
  {
    seq(|pair.1|, j requires 0 <= j < |pair.1| => (pair.0, pair.1[j]))
  }

  /** `chunk_questions`: every (chunk, question) pair, chunk-major, question-minor. */
  function Flatten(pairs: seq<(string, seq<string>)>): seq<(string, string)>
  {
    if pairs == [] then []
    else Flatten(pairs[..|pairs| - 1]) + Expand(pairs[|pairs| - 1])
  }

  /** The number of questions over all chunks. */
  function TotalQuestions(pairs: seq<(string, seq<string>)>): nat
  {
    if pairs == [] then 0 else |pairs[0].1| + TotalQuestions(pairs[1..])
  }

  lemma {:induction false} TotalQuestionsAppend(pairs: seq<(string, seq<string>)>, p: (string, seq<string>))
    ensures TotalQuestions(pairs + [p]) == TotalQuestions(pairs) + |p.1|
  {
    if pairs != [] {
      assert (pairs + [p])[1..] == pairs[1..] + [p];
      TotalQuestionsAppend(pairs[1..], p);
    }
  }

  /** One prompt and one pair per question over all chunks. */
  lemma {:induction false} FlattenLength(pairs: seq<(string, seq<string>)>)
    ensures |Flatten(pairs)| == TotalQuestions(pairs)
  {
    if pairs != [] {
      var n := |pairs| - 1;
      FlattenLength(pairs[..n]);
      assert pairs == pairs[..n] + [pairs[n]];
      TotalQuestionsAppend(pairs[..n], pairs[n]);
    }
  }

  /**
   * Question `j` of chunk `k` sits after all questions of the chunks before
   * `k`: the flattening is chunk-major and question-minor.
   */
  lemma {:induction false} FlattenAt(pairs: seq<(string, seq<string>)>, k: nat, j: nat)
    requires k < |pairs| && j < |pairs[k].1|
    ensures TotalQuestions(pairs[..k]) + j < |Flatten(pairs)|
    ensures Flatten(pairs)[TotalQuestions(pairs[..k]) + j] == (pairs[k].0, pairs[k].1[j])
  {
    var n := |pairs| - 1;
    FlattenLength(pairs[..n]);
    if k == n {
      FlattenLength(pairs[..k]);
    } else {
      assert pairs[..n][..k] == pairs[..k];
      FlattenAt(pairs[..n], k, j);
    }
  }

  /** Every flattened pair comes from some chunk's question list. */
  lemma {:induction false} FlattenSource(pairs: seq<(string, seq<string>)>, m: nat) returns (k: nat)
    requires m < |Flatten(pairs)|
    ensures k < |pairs| && Flatten(pairs)[m].0 == pairs[k].0 && Flatten(pairs)[m].1 in pairs[k].1
  {
    var n := |pairs| - 1;
    if m < |Flatten(pairs[..n])| {
      k := FlattenSource(pairs[..n], m);
      assert pairs[..n][k] == pairs[k];
    } else {
      k := n;
      assert Flatten(pairs)[m] == Expand(pairs[n])[m - |Flatten(pairs[..n])|];
    }
  }

  /** `COT_prompt_template.format(question=..., context=...)` for every pair. */
  function CotPrompts(flat: seq<(string, string)>, cotPrompt: (string, string) -> string)
    : seq<string>
  {
    seq(|flat|, m requires 0 <= m < |flat| => cotPrompt(flat[m].1, flat[m].0))
  }

  /** `(chunk, question, answer)` triples, zipped by position. */
  function CotTriples(flat: seq<(string, string)>, answers: seq<string>)
    : (triples: seq<(string, string, string)>)
    ensures |triples| == Min(|flat|, |answers|)
    ensures forall m :: 0 <= m < |triples| ==> triples[m] == (flat[m].0, flat[m].1, answers[m])
  {
    var z := Zip(flat, answers);
    seq(|z|, m requires 0 <= m < |z| => (z[m].0.0, z[m].0.1, z[m].1))
  }

  /** The answers the batch call returns for the flattened prompts. */
  function CotAnswers(pairs: seq<(string, seq<string>)>, cotPrompt: (string, string) -> string,
                      batch: seq<string> -> seq<string>): seq<string>
  {
    batch(CotPrompts(Flatten(pairs), cotPrompt))
  }

  /** The nested loops of `generate_COT`, the batch call and the zip loop. */
  method GenerateCot(pairs: seq<(string, seq<string>)>, cotPrompt: (string, string) -> string,
                     batch: seq<string> -> seq<string>)
    returns (results: seq<(string, string, string)>)
    ensures results == CotTriples(Flatten(pairs), CotAnswers(pairs, cotPrompt, batch))
    ensures |results| == Min(TotalQuestions(pairs), |CotAnswers(pairs, cotPrompt, batch)|)
  {
    var allTasks: seq<string> := [];
    var chunkQuestions: seq<(string, string)> := [];
    for i := 0 to |pairs|
      invariant chunkQuestions == Flatten(pairs[..i])
      invariant |allTasks| == |chunkQuestions|
      invariant forall m :: 0 <= m < |allTasks| ==>
                  allTasks[m] == cotPrompt(chunkQuestions[m].1, chunkQuestions[m].0)
    {
      var (documentContent, questions) := pairs[i];
      assert pairs[..i + 1][..i] == pairs[..i];
      for j := 0 to |questions|
        invariant chunkQuestions == Flatten(pairs[..i]) + Expand(pairs[i])[..j]
        invariant |allTasks| == |chunkQuestions|
        invariant forall m :: 0 <= m < |allTasks| ==>
                    allTasks[m] == cotPrompt(chunkQuestions[m].1, chunkQuestions[m].0)
      {
        var prompt := cotPrompt(questions[j], documentContent);
        allTasks := allTasks + [prompt];
        assert Expand(pairs[i])[..j + 1] == Expand(pairs[i])[..j] + [(documentContent, questions[j])];
        chunkQuestions := chunkQuestions + [(documentContent, questions[j])];
      }
      assert Expand(pairs[i])[..|questions|] == Expand(pairs[i]);
    }
    assert pairs[..|pairs|] == pairs;
    assert allTasks == CotPrompts(chunkQuestions, cotPrompt);
    var generatedAnswers := batch(allTasks);
    results := [];
    var n := Min(|chunkQuestions|, |generatedAnswers|);
    for m := 0 to n
      invariant |results| == m
      invariant forall t :: 0 <= t < m ==>
                  results[t] == (chunkQuestions[t].0, chunkQuestions[t].1, generatedAnswers[t])
    {
      var (chunk, question) := chunkQuestions[m];
      results := results + [(chunk, question, generatedAnswers[m])];
    }
    FlattenLength(pairs);
  }
}
