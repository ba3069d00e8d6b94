/**
 * The token-budget windower of the similarity retriever: it splits a text
 * into windows of at most `ws` tokens, as counted by an external token
 * counter, starting a new window every `stride` tokens' worth of characters.
 *
 * The token counter is a parameter `tokens: string -> nat`; nothing below
 * assumes anything about it.
 */
module Windower {
  import opened Util

  /** The heuristic ratio of characters to tokens. */
  const CharsPerToken: nat := 4

  /**
   * How many characters to cut from a chunk that is `overage` tokens over
   * budget: the ceiling of `overage * 4 * 0.8`, that is of `16 * overage / 5`.
   */
  function CharsToRemove(overage: nat): (k: nat)
    ensures 5 * k >= 16 * overage && 5 * k < 16 * overage + 5
  {
    (16 * overage + 4) / 5
  }

  /** How far the cursor advances per window: `stride` tokens' worth of characters. */
  function Step(stride: nat): nat
  {
    stride * CharsPerToken
  }

  /** The cursor after `k` advances of `step` characters: `k * step`. */
  function Offset(k: nat, step: nat): (r: nat)
    ensures r == k * step
  {
    if k == 0 then 0 else Offset(k - 1, step) + step
  }

  /** The estimated chunk at `start`: `ws * 4` characters, clamped to the end of the text. */
  function Candidate(data: string, start: nat, ws: nat): string
    requires start <= |data|
  {
    data[start..Min(start + ws * CharsPerToken, |data|)]
  }

  /**
   * The shrink loop: while the counter puts `chunk` over budget, cut
   * `CharsToRemove` characters from its tail; give up with "" when that
   * would remove the whole chunk.
   */
  function Shrink(chunk: string, ws: nat, tokens: string -> nat): string
    decreases |chunk|
  {
    if tokens(chunk) <= ws then chunk
    else
      var k := CharsToRemove(tokens(chunk) - ws);
      if k >= |chunk| then "" else Shrink(chunk[..|chunk| - k], ws, tokens)
  }

  /** The candidate chunk is the text at `start`, at most `ws * 4` characters long. */
  lemma CandidateSpec(data: string, start: nat, ws: nat)
    requires start <= |data|
    ensures var c := Candidate(data, start, ws);
            |c| <= ws * CharsPerToken && start + |c| <= |data| && c == data[start..start + |c|]
  {
  }

  /**
   * The shrink loop returns a prefix of its chunk that is either empty or
   * within budget, and a chunk already within budget unchanged.
   */
  lemma {:induction false} ShrinkSpec(chunk: string, ws: nat, tokens: string -> nat)
    ensures Shrink(chunk, ws, tokens) <= chunk
    ensures Shrink(chunk, ws, tokens) == "" || tokens(Shrink(chunk, ws, tokens)) <= ws
    ensures tokens(chunk) <= ws ==> Shrink(chunk, ws, tokens) == chunk
    decreases |chunk|
  {
    if tokens(chunk) > ws {
      var k := CharsToRemove(tokens(chunk) - ws);
      if k < |chunk| {
        ShrinkSpec(chunk[..|chunk| - k], ws, tokens);
      }
    }
  }

  /** The windows produced by the cursor loop once the cursor stands at `start`. */
  function WindowsFrom(data: string, start: nat, ws: nat, stride: nat, tokens: string -> nat): seq<string>
    requires stride > 0
    decreases |data| - start
  {
    if start >= |data| then []
    else
      var chunk := Shrink(Candidate(data, start, ws), ws, tokens);
      if chunk == "" then []
      else [chunk] + WindowsFrom(data, start + Step(stride), ws, stride, tokens)
  }

  /** `split_into_windows(data, ws, stride)`. */
  function Windows(data: string, ws: nat, stride: nat, tokens: string -> nat): seq<string>
    requires stride > 0
  {
    if tokens(data) <= ws then [data] else WindowsFrom(data, 0, ws, stride, tokens)
  }

  /**
   * The windower as the source runs it: one count of the whole text, then a
   * cursor loop with a nested shrink loop. `oracleCalls` counts the calls to
   * the token counter.
   */
  method SplitIntoWindows(data: string, ws: nat, stride: nat, tokens: string -> nat)
      returns (windows: seq<string>, ghost oracleCalls: nat)
    requires stride > 0
    ensures windows == Windows(data, ws, stride, tokens)
    ensures tokens(data) <= ws ==> windows == [data] && oracleCalls == 1
    ensures oracleCalls >= 1
  {
    oracleCalls := 1;
    if tokens(data) <= ws {
      return [data], oracleCalls;
    }
    windows := [];
    var start: nat := 0;
    while start < |data|
      invariant windows + WindowsFrom(data, start, ws, stride, tokens) == WindowsFrom(data, 0, ws, stride, tokens)
      invariant oracleCalls >= 1
      decreases |data| - start
    {
      var endEst := Min(start + ws * CharsPerToken, |data|);
      var chunk;
      ghost var calls;
      chunk, calls := ShrinkChunk(data[start..endEst], ws, tokens);
      oracleCalls := oracleCalls + calls;
      WindowsFromUnfold(data, start, ws, stride, tokens);
      if chunk == "" {
        break;
      }
      windows := windows + [chunk];
      start := start + Step(stride);
    }
  }

  /**
   * The inner loop of the windower: count the chunk's tokens and, while it
   * is over budget, cut `CharsToRemove` characters from its tail, giving up
   * with "" when that would remove the whole chunk. `calls` counts the
   * calls to the token counter.
   */
  method ShrinkChunk(candidate: string, ws: nat, tokens: string -> nat) returns (chunk: string, ghost calls: nat)
    ensures chunk == Shrink(candidate, ws, tokens)
  {
    chunk := candidate;
    var tokenCount := tokens(chunk);
    calls := 1;
    while tokenCount > ws
      invariant tokenCount == tokens(chunk)
      invariant Shrink(chunk, ws, tokens) == Shrink(candidate, ws, tokens)
      decreases |chunk|
    {
      var overage := tokenCount - ws;
      var charsToRemove := CharsToRemove(overage);
      if charsToRemove >= |chunk| {
        chunk := "";
        break;
      }
      calls := calls + 1;
      chunk := chunk[..|chunk| - charsToRemove];
      tokenCount := tokens(chunk);
    }
  }

  lemma WindowsFromUnfold(data: string, start: nat, ws: nat, stride: nat, tokens: string -> nat)
    requires stride > 0 && start < |data|
    ensures var chunk := Shrink(Candidate(data, start, ws), ws, tokens);
            WindowsFrom(data, start, ws, stride, tokens)
            == if chunk == "" then [] else [chunk] + WindowsFrom(data, start + Step(stride), ws, stride, tokens)
  {
  }

  /** Window `k` of `WindowsFrom(.., start, ..)` is the shrunk candidate at `start + k * stride * 4`. */
  lemma {:induction false} WindowsFromAt(data: string, start: nat, ws: nat, stride: nat, tokens: string -> nat, k: nat)
    requires stride > 0
    requires k < |WindowsFrom(data, start, ws, stride, tokens)|
    ensures start + Offset(k, Step(stride)) < |data|
    ensures WindowsFrom(data, start, ws, stride, tokens)[k]
            == Shrink(Candidate(data, start + Offset(k, Step(stride)), ws), ws, tokens) != ""
    decreases k
  {
    if k > 0 {
      var next := start + Step(stride);
      WindowsFromAt(data, next, ws, stride, tokens, k - 1);
      assert Offset(k, Step(stride)) == Offset(k - 1, Step(stride)) + Step(stride);
    }
  }

  /**
   * The cursor loop stops only when the cursor has passed the end of the
   * text or the chunk under it shrank to nothing.
   */
  lemma {:induction false} WindowsFromStop(data: string, start: nat, ws: nat, stride: nat, tokens: string -> nat)
    requires stride > 0
    ensures var n := |WindowsFrom(data, start, ws, stride, tokens)|;
            start + Offset(n, Step(stride)) >= |data|
            || Shrink(Candidate(data, start + Offset(n, Step(stride)), ws), ws, tokens) == ""
    decreases |data| - start
  {
    if start < |data| && Shrink(Candidate(data, start, ws), ws, tokens) != "" {
      var next := start + Step(stride);
      WindowsFromStop(data, next, ws, stride, tokens);
      var n := |WindowsFrom(data, next, ws, stride, tokens)|;
      assert Offset(n + 1, Step(stride)) == Offset(n, Step(stride)) + Step(stride);
    }
  }

  /**
   * Past the fast path, window `k` is non-empty, within budget, a prefix of
   * the text at offset `k * stride * 4`, at most `ws * 4` characters long,
   * and it ends within the text.
   */
  lemma {:induction false} WindowShape(data: string, ws: nat, stride: nat, tokens: string -> nat, k: nat)
    requires stride > 0
    requires tokens(data) > ws
    requires k < |Windows(data, ws, stride, tokens)|
    ensures var w := Windows(data, ws, stride, tokens)[k];
            var offset := Offset(k, Step(stride));
            && w != ""
            && tokens(w) <= ws
            && |w| <= ws * CharsPerToken
            && offset + |w| <= |data|
            && w == data[offset..offset + |w|]
  {
    WindowsFromAt(data, 0, ws, stride, tokens, k);
    var offset := Offset(k, Step(stride));
    var c := Candidate(data, offset, ws);
    var w := Shrink(c, ws, tokens);
    assert Windows(data, ws, stride, tokens)[k] == w;
    CandidateSpec(data, offset, ws);
    ShrinkSpec(c, ws, tokens);
    PrefixOfSlice(data, offset, c, w);
  }

  /** A prefix of the text's slice at `offset` is itself the text's slice at `offset`. */
  lemma PrefixOfSlice(data: string, offset: nat, c: string, w: string)
    requires offset + |c| <= |data| && c == data[offset..offset + |c|] && w <= c
    ensures offset + |w| <= |data| && w == data[offset..offset + |w|]
  {
    assert w == c[..|w|];
  }

  /** There are at most `ceil(|data| / (stride * 4))` windows past the fast path. */
  lemma {:induction false} WindowCount(data: string, ws: nat, stride: nat, tokens: string -> nat)
    requires stride > 0
    requires tokens(data) > ws
    ensures |Windows(data, ws, stride, tokens)| <= (|data| + Step(stride) - 1) / Step(stride)
  {
    var step := Step(stride);
    var n := |Windows(data, ws, stride, tokens)|;
    if n > 0 {
      WindowsFromAt(data, 0, ws, stride, tokens, n - 1);
      MulSucc(n - 1, step);
      DivBound(n, step, |data| + step - 1);
    }
  }

  lemma MulSucc(k: nat, d: nat)
    ensures (k + 1) * d == k * d + d
  {
  }

  lemma {:induction false} DivBound(n: nat, d: nat, m: nat)
    requires d > 0 && n * d <= m
    ensures n <= m / d
  {
    var q, r := m / d, m % d;
    assert m == q * d + r && r < d;
    if n > q {
      MulMono(q + 1, n, d);
      MulSucc(q, d);
    }
  }

  lemma MulMono(a: nat, b: nat, d: nat)
    requires a <= b
    ensures a * d <= b * d
  {
  }

  /**
   * The windows are characterised without the recursion: every window is
   * the shrunk candidate at its offset, non-empty, and the loop went on
   * exactly until the cursor passed the end or a chunk shrank to nothing.
   * Any sequence with these properties is the windower's result.
   */
  lemma {:induction false} WindowsCharacterised(data: string, ws: nat, stride: nat, tokens: string -> nat, w: seq<string>)
    requires stride > 0
    requires tokens(data) > ws
    ensures w == Windows(data, ws, stride, tokens) <==>
            && (forall k :: 0 <= k < |w| ==>
                  Offset(k, Step(stride)) < |data|
                  && w[k] == Shrink(Candidate(data, Offset(k, Step(stride)), ws), ws, tokens) != "")
            && (Offset(|w|, Step(stride)) >= |data|
                || Shrink(Candidate(data, Offset(|w|, Step(stride)), ws), ws, tokens) == "")
  {
    var W := Windows(data, ws, stride, tokens);
    forall k | 0 <= k < |W|
      ensures Offset(k, Step(stride)) < |data|
      ensures W[k] == Shrink(Candidate(data, Offset(k, Step(stride)), ws), ws, tokens) != ""
    {
      WindowsFromAt(data, 0, ws, stride, tokens, k);
    }
    WindowsFromStop(data, 0, ws, stride, tokens);
    if && (forall k :: 0 <= k < |w| ==>
             Offset(k, Step(stride)) < |data|
             && w[k] == Shrink(Candidate(data, Offset(k, Step(stride)), ws), ws, tokens) != "")
       && (Offset(|w|, Step(stride)) >= |data|
           || Shrink(Candidate(data, Offset(|w|, Step(stride)), ws), ws, tokens) == "")
    {
      var m := if |w| < |W| then |w| else |W|;
      assert w[..m] == W[..m];
      if |w| < |W| {
        assert false;
      } else if |W| < |w| {
        assert false;
      }
    }
  }
}
