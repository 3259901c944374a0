/**
 * The deterministic part of `get_chunks`: the empty-text check and the
 * target chunk count handed to the semantic splitter.
 */
module Chunker {
  import opened Common

  /** `TypeError` on empty text; `ZeroDivisionError` for a chunk size of 0. */
  datatype ChunkError = EmptyText | DivisionByZero

  /** Python `ceil(n / d)` for a positive divisor. */
  function CeilDiv(n: nat, d: nat): nat
    requires d > 0
  {
    (n + d - 1) / d
  }

  lemma MulLe(a: int, b: int, d: nat)
    requires a <= b
    ensures a * d <= b * d
  {
    var t := b - a;
    assert b * d == a * d + t * d;
  }

  /** Division is determined by any quotient and in-range remainder. */
  lemma DivUnique(a: nat, d: nat, q: nat, m: nat)
    requires d > 0 && m < d && a == q * d + m
    ensures a / d == q
  {
    var q', m' := a / d, a % d;
    assert a == q' * d + m';
    if q' < q {
      MulLe(q' + 1, q, d);
    } else if q' > q {
      MulLe(q + 1, q', d);
    }
  }

  /** The ceiling is the least multiple count that covers `n`. */
  lemma CeilDivBounds(n: nat, d: nat)
    requires n > 0 && d > 0
    ensures CeilDiv(n, d) >= 1
    ensures (CeilDiv(n, d) - 1) * d < n <= CeilDiv(n, d) * d
  {
    var q, m := n / d, n % d;
    assert n == q * d + m;
    assert (q - 1) * d == q * d - d;
    assert (q + 1) * d == q * d + d;
    if m == 0 {
      assert q * d == n > 0;
      assert q >= 1;
      assert n + d - 1 == q * d + (d - 1);
      DivUnique(n + d - 1, d, q, d - 1);
    } else {
      assert n + d - 1 == (q + 1) * d + (m - 1);
      DivUnique(n + d - 1, d, q + 1, m - 1);
    }
  }

  /** Python `ceil(n / d)` for a negative divisor: minus the floor of `n / -d`. */
  lemma NegativeCeilBounds(n: nat, d: int)
    requires d < 0
    ensures -(n / -d) * d <= n < (-(n / -d) - 1) * d
  {
    var e := -d;
    var q, m := n / e, n % e;
    assert n == q * e + m;
    assert -q * d == q * e;
    assert (-q - 1) * d == q * e + e;
  }

  /** `num_chunks = ceil(len(text) / chunk_size)`, after the empty-text check. */
  function NumChunks(textLen: nat, chunkSize: int): (r: Result<int, ChunkError>)
    ensures r == Err(EmptyText) <==> textLen == 0
    ensures r == Err(DivisionByZero) <==> textLen > 0 && chunkSize == 0
    ensures r.Ok? && chunkSize > 0 ==>
              r.value >= 1 && (r.value - 1) * chunkSize < textLen <= r.value * chunkSize
    ensures r.Ok? && chunkSize < 0 ==>
              r.value <= 0 && r.value * chunkSize <= textLen < (r.value - 1) * chunkSize
  {
    if textLen == 0 then Err(EmptyText)
    else if chunkSize == 0 then Err(DivisionByZero)
    else if chunkSize > 0 then
      CeilDivBounds(textLen, chunkSize);
      Ok(CeilDiv(textLen, chunkSize))
    else
      NegativeCeilBounds(textLen, chunkSize);
      Ok(-(textLen / -chunkSize))
  }

  /**
   * `get_chunks`: the semantic splitter (an embedding-based library) is a
   * parameter that receives the text and the target chunk count.
   */
  function GetChunks(text: string, chunkSize: int, splitter: (string, int) -> seq<string>)
    : (r: Result<seq<string>, ChunkError>)
    ensures r == Err(EmptyText) <==> |text| == 0
    ensures r.Ok? <==> |text| > 0 && chunkSize != 0
    ensures r.Ok? ==> r.value == splitter(text, NumChunks(|text|, chunkSize).value)
  {
    match NumChunks(|text|, chunkSize)
    case Err(e) => Err(e)
    case Ok(n) => Ok(splitter(text, n))
  }
}
