/**
 * `clean_documents`: drops denylisted and blank lines from extracted page
 * text, strips the survivors and joins them with single spaces.
 */
module Normalizer {
  import opened Text

  /** Site furniture that is dropped when a whole line equals it. */
  const Unwanted: seq<string> := [
    "Technology",
    "Getting Started",
    "Trust & Safety",
    "Community",
    "Resources",
    "Skip to main content",
    "How-to guides"
  ]

  /** Whether an already stripped line survives the filter. */
  predicate Kept(line: string)
  {
    line !in Unwanted && !AllSpace(line)
  }

  /** Python `[line.strip() for line in lines]`. */
  function StripAll(lines: seq<string>): seq<string>
  {
    seq(|lines|, k requires 0 <= k < |lines| => Trim(lines[k]))
  }

  /** The stripped lines that pass the filter, in their original order. */
  function KeptLines(stripped: seq<string>): (kept: seq<string>)
    ensures |kept| <= |stripped|
    ensures forall k :: 0 <= k < |kept| ==> Kept(kept[k]) && kept[k] != []
  {
    if stripped == [] then []
    else
      var last := stripped[|stripped| - 1];
      KeptLines(stripped[..|stripped| - 1]) + (if Kept(last) then [last] else [])
  }

  /** The text `clean_documents` returns. */
  function Cleaned(rawText: string): string
  {
    Join(KeptLines(StripAll(Split(rawText, '\n'))), " ")
  }

  /** The loop of `clean_documents`, appending survivors to `allLines`. */
  method CleanDocuments(rawText: string) returns (result: string)
    ensures result == Cleaned(rawText)
  {
    var lines := Split(rawText, '\n');
    ghost var stripped := StripAll(lines);
    var allLines: seq<string> := [];
    for i := 0 to |lines|
      invariant allLines == KeptLines(stripped[..i])
    {
      var line := Trim(lines[i]);
      assert stripped[..i + 1] == stripped[..i] + [line];
      assert stripped[..i + 1][..i] == stripped[..i];
      if line in Unwanted || AllSpace(line) {
        continue;
      } else {
        allLines := allLines + [line];
      }
    }
    assert stripped[..|lines|] == stripped;
    result := Join(allLines, " ");
  }

  /**
   * A line is among the survivors exactly when some stripped input line
   * equals it and passes the filter.
   */
  lemma KeptLinesMembership(stripped: seq<string>, line: string)
    ensures line in KeptLines(stripped) <==> line in stripped && Kept(line)
  {
    if line in KeptLines(stripped) {
      KeptLineSource(stripped, line);
    }
    if line in stripped && Kept(line) {
      var k :| 0 <= k < |stripped| && stripped[k] == line;
      KeptLineFromSource(stripped, k);
    }
  }

  /** Every survivor is a stripped input line that passes the filter. */
  lemma {:induction false} KeptLineSource(stripped: seq<string>, line: string)
    requires line in KeptLines(stripped)
    ensures line in stripped && Kept(line)
  {
    var n := |stripped| - 1;
    var last := stripped[n];
    assert KeptLines(stripped) == KeptLines(stripped[..n]) + (if Kept(last) then [last] else []);
    if line in KeptLines(stripped[..n]) {
      KeptLineSource(stripped[..n], line);
      var k :| 0 <= k < n && stripped[..n][k] == line;
      assert stripped[k] == line;
    }
  }

  /** Every stripped input line that passes the filter survives. */
  lemma {:induction false} KeptLineFromSource(stripped: seq<string>, k: nat)
    requires k < |stripped| && Kept(stripped[k])
    ensures stripped[k] in KeptLines(stripped)
  {
    var n := |stripped| - 1;
    var last := stripped[n];
    var init := KeptLines(stripped[..n]);
    assert KeptLines(stripped) == init + (if Kept(last) then [last] else []);
    if k < n {
      assert stripped[..n][k] == stripped[k];
      KeptLineFromSource(stripped[..n], k);
    }
  }

  /** Survivors of stripped lines free of a character are free of it too. */
  lemma {:induction false} KeptLinesAvoid(stripped: seq<string>, c: char)
    requires forall k :: 0 <= k < |stripped| ==> c !in stripped[k]
    ensures forall k :: 0 <= k < |KeptLines(stripped)| ==> c !in KeptLines(stripped)[k]
  {
    if stripped != [] {
      KeptLinesAvoid(stripped[..|stripped| - 1], c);
    }
  }

  /** The cleaned text is a single line. */
  lemma CleanedHasNoNewline(rawText: string)
    ensures '\n' !in Cleaned(rawText)
  {
    var lines := Split(rawText, '\n');
    forall k | 0 <= k < |lines| ensures '\n' !in StripAll(lines)[k] {
      TrimAvoids(lines[k], '\n');
    }
    KeptLinesAvoid(StripAll(lines), '\n');
    JoinAvoids(KeptLines(StripAll(lines)), " ", '\n');
  }

  /** The cleaned text is empty exactly when no line survives, e.g. for empty input. */
  lemma CleanedEmpty(rawText: string)
    ensures Cleaned(rawText) == [] <==> KeptLines(StripAll(Split(rawText, '\n'))) == []
    ensures rawText == [] ==> Cleaned(rawText) == []
  {
    JoinNonEmpty(KeptLines(StripAll(Split(rawText, '\n'))), " ");
    if rawText == [] {
      assert Split(rawText, '\n') == [[]];
      assert StripAll([[]]) == [[]];
      assert !Kept([]);
    }
  }
}
