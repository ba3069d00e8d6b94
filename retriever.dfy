/**
 * The cross-window aggregator and ranker of the similarity retriever
 * (`get_context_and_ifi`): the text is split into windows, the store is
 * asked for the top matches of every window, scores are summed per
 * document identifier, content is kept per identifier (the last write
 * wins), and the identifiers are stably sorted by accumulated score,
 * highest first, and cut to the first `topN`.
 *
 * The embedder and the similarity store together are one parameter
 * `store: (window, limit) -> Result<matches>`; a `Failure` stands for any
 * exception either of them raises.
 */
module Retriever {
  import opened Util
  import Windower

  /** A similarity score. Floating-point rounding of sums is not modelled. */
  type Score = real

  /** One row of the store's answer: (content, IFI_file_name, similarity). */
  datatype Match = Match(content: string, id: string, score: Score)

  /** One returned pair: (content, IFI_file_name). */
  datatype Doc = Doc(content: string, id: string)

  /** One item of the score dictionary: (IFI_file_name, accumulated score). */
  datatype Entry = Entry(id: string, score: Score)

  type Store = (string, nat) -> Result<seq<Match>>

  /** The window size and stride, in tokens, that the retriever passes to the windower. */
  const WindowSize: nat := 256
  const Stride: nat := 200

  /** The characters Python's `str.strip()` removes, those for which `str.isspace()` holds. */
  predicate IsSpace(c: char)
  {
    || c == ' ' || '\t' <= c <= '\r' || '\U{1c}' <= c <= '\U{1f}'
    || c == '\U{85}' || c == '\U{a0}' || c == '\U{1680}' || '\U{2000}' <= c <= '\U{200a}'
    || c == '\U{2028}' || c == '\U{2029}' || c == '\U{202f}' || c == '\U{205f}' || c == '\U{3000}'
  }

  /** `s.strip() == ""`: every character of `s` is white space. */
  function IsBlank(s: string): (b: bool)
    ensures b <==> forall i :: 0 <= i < |s| ==> IsSpace(s[i])
  {
    if s == [] then true
    else
      assert forall i :: 1 <= i < |s| ==> s[1..][i - 1] == s[i];
      IsSpace(s[0]) && IsBlank(s[1..])
  }

  /** `s.lstrip()`: `s` without its leading white space. */
  function LStrip(s: string): string
  {
    if s != [] && IsSpace(s[0]) then LStrip(s[1..]) else s
  }

  /** `s.rstrip()`: `s` without its trailing white space. */
  function RStrip(s: string): string
  {
    if s != [] && IsSpace(s[|s| - 1]) then RStrip(s[..|s| - 1]) else s
  }

  /** `s.strip()`. */
  function Strip(s: string): string
  {
    RStrip(LStrip(s))
  }

  lemma {:induction false} LStripBlank(s: string)
    ensures LStrip(s) == [] <==> IsBlank(s)
    ensures LStrip(s) != [] ==> !IsSpace(LStrip(s)[0])
  {
    if s != [] && IsSpace(s[0]) {
      LStripBlank(s[1..]);
    }
  }

  lemma {:induction false} RStripKeeps(t: string)
    requires t != [] && !IsSpace(t[0])
    ensures RStrip(t) != []
    decreases |t|
  {
    if IsSpace(t[|t| - 1]) {
      RStripKeeps(t[..|t| - 1]);
    }
  }

  /** The blank test is Python's: `strip()` leaves nothing exactly when the text is blank. */
  lemma StripBlank(s: string)
    ensures Strip(s) == "" <==> IsBlank(s)
  {
    LStripBlank(s);
    if LStrip(s) != [] {
      RStripKeeps(LStrip(s));
    }
  }

  function Ids(ms: seq<Match>): seq<string>
  {
    seq(|ms|, k requires 0 <= k < |ms| => ms[k].id)
  }

  function DocIds(ds: seq<Doc>): seq<string>
  {
    seq(|ds|, k requires 0 <= k < |ds| => ds[k].id)
  }

  /** The sum, in order, of the scores of the matches naming `id`. */
  function TotalScore(ms: seq<Match>, id: string): Score
  {
    if ms == [] then 0.0
    else
      var last := ms[|ms| - 1];
      TotalScore(ms[..|ms| - 1], id) + (if last.id == id then last.score else 0.0)
  }

  /** The content of the last match naming `id` ("" when none does). */
  function LastContent(ms: seq<Match>, id: string): (c: string)
    ensures id in Ids(ms) ==>
              exists k :: 0 <= k < |ms| && ms[k].id == id && ms[k].content == c
                          && forall j :: k < j < |ms| ==> ms[j].id != id
  {
    if ms == [] then ""
    else
      var last := ms[|ms| - 1];
      if last.id == id then last.content
      else
        assert id in Ids(ms) ==> id in Ids(ms[..|ms| - 1]) by {
          if id in Ids(ms) {
            var k :| 0 <= k < |ms| && Ids(ms)[k] == id;
            assert Ids(ms[..|ms| - 1])[k] == id;
          }
        }
        LastContent(ms[..|ms| - 1], id)
  }

  // ---------------------------------------------------------------------
  // Stable sort by score, highest first
  // ---------------------------------------------------------------------

  predicate NonIncreasing(s: seq<Entry>)
  {
    forall i, j :: 0 <= i < j < |s| ==> s[i].score >= s[j].score
  }

  /** Puts `e` before the first entry of `s` that does not score higher. */
  function Insert(e: Entry, s: seq<Entry>): (r: seq<Entry>)
    ensures |r| == |s| + 1
  {
    if s == [] || e.score >= s[0].score then [e] + s
    else [s[0]] + Insert(e, s[1..])
  }

  /** `sorted(items, key=score, reverse=True)`. */
  function SortDesc(s: seq<Entry>): (r: seq<Entry>)
    ensures |r| == |s|
  {
    if s == [] then [] else Insert(s[0], SortDesc(s[1..]))
  }

  /** The entries of `s` that score exactly `v`, in order. */
  function Ties(s: seq<Entry>, v: Score): seq<Entry>
  {
    if s == [] then []
    else (if s[0].score == v then [s[0]] else []) + Ties(s[1..], v)
  }

  lemma {:induction false} InsertElements(e: Entry, s: seq<Entry>)
    ensures multiset(Insert(e, s)) == multiset(s) + multiset{e}
    ensures forall x :: x in Insert(e, s) <==> x == e || x in s
  {
    if !(s == [] || e.score >= s[0].score) {
      assert s == [s[0]] + s[1..];
      InsertElements(e, s[1..]);
    }
  }

  lemma {:induction false} InsertSorted(e: Entry, s: seq<Entry>)
    requires NonIncreasing(s)
    ensures NonIncreasing(Insert(e, s))
  {
    if !(s == [] || e.score >= s[0].score) {
      var t := s[1..];
      InsertSorted(e, t);
      InsertElements(e, t);
      assert forall x :: x in t ==> s[0].score >= x.score;
    }
  }

  lemma {:induction false} InsertDistinct(e: Entry, s: seq<Entry>)
    requires e !in s && NoDuplicates(s)
    ensures NoDuplicates(Insert(e, s))
  {
    if !(s == [] || e.score >= s[0].score) {
      var t := s[1..];
      assert s == [s[0]] + t;
      assert NoDuplicates(t);
      InsertDistinct(e, t);
      InsertElements(e, t);
      var i := Insert(e, t);
      assert s[0] !in i by {
        assert s[0] != e && s[0] !in t;
      }
      var r := Insert(e, s);
      assert r == [s[0]] + i;
      forall a, b | 0 <= a < b < |r| ensures r[a] != r[b]
      {
        assert r[b] == i[b - 1];
        if a > 0 {
          assert r[a] == i[a - 1];
        } else {
          assert i[b - 1] in i;
        }
      }
    }
  }

  /** Inserting `e` adds it in front of the entries of equal score. */
  lemma TiesCons(x: Entry, s: seq<Entry>, v: Score)
    ensures Ties([x] + s, v) == (if x.score == v then [x] else []) + Ties(s, v)
  {
    assert ([x] + s)[1..] == s;
  }

  lemma {:induction false} InsertTies(e: Entry, s: seq<Entry>, v: Score)
    ensures Ties(Insert(e, s), v) == (if e.score == v then [e] else []) + Ties(s, v)
  {
    if s == [] || e.score >= s[0].score {
      TiesCons(e, s, v);
    } else {
      var x, t := s[0], s[1..];
      assert s == [x] + t;
      var i := Insert(e, t);
      assert Insert(e, s) == [x] + i;
      InsertTies(e, t, v);
      TiesCons(x, i, v);
      TiesCons(x, t, v);
      InsertTiesSwap(x, e, Ties(t, v), v);
    }
  }

  /** Two entries of different score never both tie at `v`, so their order among the ties is moot. */
  lemma InsertTiesSwap(x: Entry, e: Entry, rest: seq<Entry>, v: Score)
    requires x.score != e.score
    ensures (if x.score == v then [x] else []) + ((if e.score == v then [e] else []) + rest)
         == (if e.score == v then [e] else []) + ((if x.score == v then [x] else []) + rest)
  {
  }

  /**
   * The sort returns a permutation of its input, ordered by score, highest
   * first, in which entries of equal score keep their input order.
   */
  lemma {:induction false} SortSpec(s: seq<Entry>)
    ensures multiset(SortDesc(s)) == multiset(s)
    ensures NonIncreasing(SortDesc(s))
    ensures NoDuplicates(s) ==> NoDuplicates(SortDesc(s))
    ensures forall v :: Ties(SortDesc(s), v) == Ties(s, v)
  {
    if s != [] {
      var t := s[1..];
      assert s == [s[0]] + t;
      SortSpec(t);
      var st := SortDesc(t);
      InsertElements(s[0], st);
      InsertSorted(s[0], st);
      if NoDuplicates(s) {
        assert NoDuplicates(t);
        assert s[0] !in t;
        assert s[0] !in multiset(st);
        InsertDistinct(s[0], st);
      }
      forall v ensures Ties(SortDesc(s), v) == Ties(s, v)
      {
        InsertTies(s[0], st, v);
      }
    }
  }

  /** The ties in a prefix are a prefix of the ties. */
  lemma {:induction false} TiesPrefix(s: seq<Entry>, n: nat, v: Score)
    requires n <= |s|
    ensures Ties(s[..n], v) <= Ties(s, v)
  {
    if n > 0 {
      assert s[..n][1..] == s[1..][..n - 1];
      TiesPrefix(s[1..], n - 1, v);
    }
  }

  // ---------------------------------------------------------------------
  // Ranking
  // ---------------------------------------------------------------------

  /** `similar_docs.items()`: each identifier, in first-seen order, with its accumulated score. */
  function Items(ms: seq<Match>): seq<Entry>
  {
    var ids := Distinct(Ids(ms));
    seq(|ids|, k requires 0 <= k < |ids| => Entry(ids[k], TotalScore(ms, ids[k])))
  }

  /** The first `topN` items by accumulated score. */
  function Ranked(ms: seq<Match>, topN: nat): seq<Entry>
  {
    var sorted := SortDesc(Items(ms));
    sorted[..Min(topN, |sorted|)]
  }

  /** The ranked identifiers, each paired with the content last seen for it. */
  function Rank(ms: seq<Match>, topN: nat): seq<Doc>
  {
    var top := Ranked(ms, topN);
    seq(|top|, k requires 0 <= k < |top| => Doc(LastContent(ms, top[k].id), top[k].id))
  }

  /** The items are the identifiers seen, once each, each with its accumulated score. */
  lemma ItemsSpec(ms: seq<Match>)
    ensures |Items(ms)| == |Distinct(Ids(ms))|
    ensures NoDuplicates(Items(ms))
    ensures forall e :: e in Items(ms) <==> e.id in Ids(ms) && e.score == TotalScore(ms, e.id)
  {
    var ids := Distinct(Ids(ms));
    DistinctElements(Ids(ms));
    DistinctOrder(Ids(ms));
    var items := Items(ms);
    forall e ensures e in items <==> e.id in Ids(ms) && e.score == TotalScore(ms, e.id)
    {
      if e.id in Ids(ms) && e.score == TotalScore(ms, e.id) {
        var k := IndexOf(ids, e.id);
        assert items[k] == e;
      }
    }
  }

  /** An identifier seen in the matches sits somewhere in the sorted items. */
  lemma SortedHolds(ms: seq<Match>, id: string) returns (p: nat)
    requires id in Ids(ms)
    ensures p < |SortDesc(Items(ms))| && SortDesc(Items(ms))[p] == Entry(id, TotalScore(ms, id))
  {
    ItemsSpec(ms);
    SortSpec(Items(ms));
    var e := Entry(id, TotalScore(ms, id));
    assert e in multiset(SortDesc(Items(ms)));
    p :| 0 <= p < |SortDesc(Items(ms))| && SortDesc(Items(ms))[p] == e;
  }

  /**
   * The ranking holds `min(topN, #identifiers seen)` entries, with distinct
   * identifiers, each seen in the matches, with its accumulated score, in
   * non-increasing order of score.
   */
  lemma RankedSpec(ms: seq<Match>, topN: nat)
    ensures |Ranked(ms, topN)| == Min(topN, |Distinct(Ids(ms))|)
    ensures NoDuplicates(Ranked(ms, topN))
    ensures forall e :: e in Ranked(ms, topN) ==> e.id in Ids(ms) && e.score == TotalScore(ms, e.id)
    ensures NonIncreasing(Ranked(ms, topN))
  {
    var items := Items(ms);
    var sorted := SortDesc(items);
    var top := sorted[..Min(topN, |sorted|)];
    ItemsSpec(ms);
    SortSpec(items);
    forall e | e in top ensures e.id in Ids(ms) && e.score == TotalScore(ms, e.id)
    {
      assert e in multiset(sorted);
    }
  }

  /** No identifier left out of the ranking scores higher than one kept. */
  lemma RankedTop(ms: seq<Match>, topN: nat, id: string, k: nat)
    requires id in Ids(ms) && k < |Ranked(ms, topN)|
    requires forall j :: 0 <= j < |Ranked(ms, topN)| ==> Ranked(ms, topN)[j].id != id
    ensures TotalScore(ms, id) <= Ranked(ms, topN)[k].score
  {
    var sorted := SortDesc(Items(ms));
    var m := Min(topN, |sorted|);
    var p := SortedHolds(ms, id);
    RankedPrefix(ms, topN);
    SortSpec(Items(ms));
  }

  lemma RankedPrefix(ms: seq<Match>, topN: nat)
    ensures |Ranked(ms, topN)| == Min(topN, |SortDesc(Items(ms))|)
    ensures forall j :: 0 <= j < |Ranked(ms, topN)| ==> Ranked(ms, topN)[j] == SortDesc(Items(ms))[j]
  {
  }

  /** Among entries of equal score, the ranking keeps the first ones in first-seen order. */
  lemma RankedTies(ms: seq<Match>, topN: nat, v: Score)
    ensures Ties(Ranked(ms, topN), v) <= Ties(Items(ms), v)
  {
    var sorted := SortDesc(Items(ms));
    SortSpec(Items(ms));
    TiesPrefix(sorted, Min(topN, |sorted|), v);
  }

  /**
   * Each returned pair holds a ranked identifier and the content of the last
   * match that named it; no identifier is returned twice.
   */
  lemma RankSpec(ms: seq<Match>, topN: nat)
    ensures |Rank(ms, topN)| == Min(topN, |Distinct(Ids(ms))|)
    ensures DocIds(Rank(ms, topN)) == seq(|Ranked(ms, topN)|, k requires 0 <= k < |Ranked(ms, topN)| => Ranked(ms, topN)[k].id)
    ensures NoDuplicates(DocIds(Rank(ms, topN)))
    ensures forall k :: 0 <= k < |Rank(ms, topN)| ==>
              Rank(ms, topN)[k].id in Ids(ms) && Rank(ms, topN)[k].content == LastContent(ms, Rank(ms, topN)[k].id)
  {
    RankedSpec(ms, topN);
    var top := Ranked(ms, topN);
    var r := Rank(ms, topN);
    forall i, j | 0 <= i < j < |r| ensures DocIds(r)[i] != DocIds(r)[j]
    {
      assert top[i] in top && top[j] in top;
      assert top[i].score == TotalScore(ms, top[i].id);
      assert top[j].score == TotalScore(ms, top[j].id);
    }
    forall k | 0 <= k < |r| ensures r[k].id in Ids(ms)
    {
      assert top[k] in top;
    }
  }

  /**
   * An identifier whose accumulated score beats every other identifier's
   * comes first, with the content last seen for it, whenever `topN > 0`.
   */
  lemma RankedFirst(ms: seq<Match>, topN: nat, id: string)
    requires topN > 0 && id in Ids(ms)
    requires forall other :: other in Ids(ms) && other != id ==> TotalScore(ms, other) < TotalScore(ms, id)
    ensures |Rank(ms, topN)| > 0 && Rank(ms, topN)[0] == Doc(LastContent(ms, id), id)
  {
    DistinctElements(Ids(ms));
    RankedSpec(ms, topN);
    var top := Ranked(ms, topN);
    assert |top| > 0;
    var first := top[0];
    assert first in top;
    if forall j :: 0 <= j < |top| ==> top[j].id != id {
      RankedTop(ms, topN, id, 0);
    }
  }

  // ---------------------------------------------------------------------
  // Retrieval
  // ---------------------------------------------------------------------

  /** Queries the store window by window; the first failure aborts the run. */
  function QueryAll(windows: seq<string>, topN: nat, store: Store): (r: Result<seq<seq<Match>>>)
    ensures r.Success? <==> forall k :: 0 <= k < |windows| ==> store(windows[k], topN).Success?
    ensures r.Success? ==>
              && |r.value| == |windows|
              && forall k :: 0 <= k < |windows| ==> store(windows[k], topN) == Success(r.value[k])
    ensures r.Failure? ==>
              exists k :: 0 <= k < |windows| && store(windows[k], topN) == Failure(r.error)
                          && forall j :: 0 <= j < k ==> store(windows[j], topN).Success?
  {
    if windows == [] then Success([])
    else
      match store(windows[0], topN)
      case Failure(e) => Failure(e)
      case Success(ms) =>
        var rest := QueryAll(windows[1..], topN, store);
        assert forall k :: 1 <= k < |windows| ==> windows[1..][k - 1] == windows[k];
        Prefixed([ms], rest)
  }

  /**
   * A run over `windows` that stopped right after its first failing query:
   * `queried` holds the windows up to and including that one.
   */
  predicate QueryStopped(windows: seq<string>, queried: seq<string>, topN: nat, store: Store)
  {
    exists k :: 0 <= k < |windows| && queried == windows[..k + 1]
                && store(windows[k], topN).Failure?
                && forall j :: 0 <= j < k ==> store(windows[j], topN).Success?
  }

  /** The store answered every one of `windows`. */
  predicate Answered(windows: seq<string>, topN: nat, store: Store)
  {
    forall j :: 0 <= j < |windows| ==> store(windows[j], topN).Success?
  }

  lemma AnsweredSnoc(windows: seq<string>, w: string, topN: nat, store: Store)
    requires Answered(windows, topN, store) && store(w, topN).Success?
    ensures Answered(windows + [w], topN, store)
  {
    assert forall k :: 0 <= k < |windows| ==> (windows + [w])[k] == windows[k];
  }

  /** The windows before `i` were all answered and window `i` fails: the run stops there. */
  lemma QueryStops(windows: seq<string>, i: nat, topN: nat, store: Store)
    requires i < |windows| && Answered(windows[..i], topN, store)
    requires store(windows[i], topN).Failure?
    ensures QueryStopped(windows, windows[..i + 1], topN, store)
  {
    assert forall j :: 0 <= j < i ==> windows[..i][j] == windows[j];
  }

  /** The prefix of the message of the error the retriever raises when a call inside it fails. */
  const ErrorPrefix := "[Similarity Retriever] Error: "

  /**
   * `get_context_and_ifi(data, top_n)`. Blank text gives no pairs; otherwise
   * the call fails exactly when the store fails on some window, with the
   * retriever's own error prefix, and there is no partial result.
   */
  function ContextAndIfi(data: string, topN: nat, tokens: string -> nat, store: Store): (r: Result<seq<Doc>>)
    ensures IsBlank(data) ==> r == Success([])
    ensures r.Failure? <==>
              && !IsBlank(data)
              && exists k :: 0 <= k < |Windower.Windows(data, WindowSize, Stride, tokens)|
                             && store(Windower.Windows(data, WindowSize, Stride, tokens)[k], topN).Failure?
    ensures r.Failure? ==> ErrorPrefix <= r.error
  {
    if IsBlank(data) then Success([])
    else
      match QueryAll(Windower.Windows(data, WindowSize, Stride, tokens), topN, store)
      case Failure(e) => Failure(ErrorPrefix + e)
      case Success(outs) => Success(Rank(Flatten(outs), topN))
  }

  /**
   * A text that is not blank and fits the window budget is one window: the
   * store is asked once, and its answer is ranked on its own.
   */
  lemma OneWindowRetrieval(data: string, topN: nat, tokens: string -> nat, store: Store, ms: seq<Match>)
    requires !IsBlank(data) && tokens(data) <= WindowSize
    requires store(data, topN) == Success(ms)
    ensures ContextAndIfi(data, topN, tokens, store) == Success(Rank(ms, topN))
  {
    assert Windower.Windows(data, WindowSize, Stride, tokens) == [data];
    assert [data][1..] == [];
    assert QueryAll([], topN, store) == Success([]);
    assert [ms] + [] == [ms];
    assert QueryAll([data], topN, store) == Success([ms]);
    assert Flatten([ms]) == ms by {
      assert [ms][..0] == [];
    }
  }

  /**
   * The two dictionaries and their key order after the matches `seen`:
   * keys in first-seen order, summed scores, last content.
   */
  ghost predicate Aggregated(seen: seq<Match>, order: seq<string>, scores: map<string, Score>, contents: map<string, string>)
  {
    order == Distinct(Ids(seen)) && ScoresOf(seen, scores) && ContentsOf(seen, contents)
  }

  /** `scores` maps each identifier seen to its accumulated score. */
  ghost predicate ScoresOf(seen: seq<Match>, scores: map<string, Score>)
  {
    && (forall id :: id in scores <==> id in Ids(seen))
    && (forall id :: id in scores ==> scores[id] == TotalScore(seen, id))
  }

  /** `contents` maps each identifier seen to the content last seen for it. */
  ghost predicate ContentsOf(seen: seq<Match>, contents: map<string, string>)
  {
    && (forall id :: id in contents <==> id in Ids(seen))
    && (forall id :: id in contents ==> contents[id] == LastContent(seen, id))
  }

  lemma IdsSnoc(seen: seq<Match>, m: Match)
    ensures Ids(seen + [m]) == Ids(seen) + [m.id]
  {
  }

  lemma TotalScoreSnoc(seen: seq<Match>, m: Match, id: string)
    ensures TotalScore(seen + [m], id) == TotalScore(seen, id) + (if m.id == id then m.score else 0.0)
  {
    assert (seen + [m])[..|seen|] == seen;
  }

  /** Scores accumulate across a concatenation: the total over `a + b` is the total over `a` plus that over `b`. */
  lemma {:induction false} TotalScoreAppend(a: seq<Match>, b: seq<Match>, id: string)
    ensures TotalScore(a + b, id) == TotalScore(a, id) + TotalScore(b, id)
  {
    if b == [] {
      assert a + b == a;
    } else {
      var init, m := b[..|b| - 1], b[|b| - 1];
      assert b == init + [m];
      assert a + b == (a + init) + [m];
      TotalScoreAppend(a, init, id);
      TotalScoreSnoc(a + init, m, id);
      TotalScoreSnoc(init, m, id);
    }
  }

  lemma LastContentSnoc(seen: seq<Match>, m: Match, id: string)
    ensures LastContent(seen + [m], id) == if m.id == id then m.content else LastContent(seen, id)
  {
    assert (seen + [m])[..|seen|] == seen;
  }

  /** An identifier no match names has accumulated nothing. */
  lemma {:induction false} TotalScoreAbsent(ms: seq<Match>, id: string)
    requires id !in Ids(ms)
    ensures TotalScore(ms, id) == 0.0
  {
    if ms != [] {
      var init := ms[..|ms| - 1];
      assert forall k :: 0 <= k < |init| ==> Ids(init)[k] == Ids(ms)[k];
      assert ms[|ms| - 1].id == Ids(ms)[|ms| - 1];
      TotalScoreAbsent(init, id);
    }
  }

  lemma ScoresStep(seen: seq<Match>, scores: map<string, Score>, m: Match)
    requires ScoresOf(seen, scores)
    ensures ScoresOf(seen + [m], scores[m.id := (if m.id in scores then scores[m.id] else 0.0) + m.score])
  {
    IdsSnoc(seen, m);
    if m.id !in scores {
      TotalScoreAbsent(seen, m.id);
    }
    forall id ensures TotalScore(seen + [m], id) == TotalScore(seen, id) + (if m.id == id then m.score else 0.0)
    {
      TotalScoreSnoc(seen, m, id);
    }
  }

  lemma ContentsStep(seen: seq<Match>, contents: map<string, string>, m: Match)
    requires ContentsOf(seen, contents)
    ensures ContentsOf(seen + [m], contents[m.id := m.content])
  {
    IdsSnoc(seen, m);
    forall id ensures LastContent(seen + [m], id) == if m.id == id then m.content else LastContent(seen, id)
    {
      LastContentSnoc(seen, m, id);
    }
  }

  /** One more match: a new identifier joins the key order, and both dictionaries take it in. */
  lemma AggregatedStep(seen: seq<Match>, order: seq<string>, scores: map<string, Score>, contents: map<string, string>, m: Match)
    requires Aggregated(seen, order, scores, contents)
    ensures Aggregated(seen + [m],
                       if m.id in scores then order else order + [m.id],
                       scores[m.id := (if m.id in scores then scores[m.id] else 0.0) + m.score],
                       contents[m.id := m.content])
  {
    IdsSnoc(seen, m);
    DistinctSnoc(Ids(seen), m.id);
    ScoresStep(seen, scores, m);
    ContentsStep(seen, contents, m);
  }

  /**
   * Read off the two dictionaries, the items of `similar_docs` and the
   * content of every ranked identifier are those of the specification.
   */
  lemma AggregatedRanking(seen: seq<Match>, order: seq<string>, scores: map<string, Score>, contents: map<string, string>, topN: nat)
    requires Aggregated(seen, order, scores, contents)
    ensures |order| == |Items(seen)|
    ensures forall k :: 0 <= k < |order| ==> order[k] in scores && Items(seen)[k] == Entry(order[k], scores[order[k]])
    ensures forall e :: e in Ranked(seen, topN) ==> e.id in contents && contents[e.id] == LastContent(seen, e.id)
  {
    DistinctElements(Ids(seen));
    ItemsSpec(seen);
    RankedSpec(seen, topN);
    forall k | 0 <= k < |order| ensures order[k] in scores
    {
      assert order[k] in Distinct(Ids(seen));
    }
  }

  /** The pairs read off the content dictionary for the ranked identifiers are those of the specification. */
  lemma RankFromDictionaries(seen: seq<Match>, contents: map<string, string>, topN: nat, top: seq<Entry>, docs: seq<Doc>)
    requires top == Ranked(seen, topN)
    requires forall e :: e in top ==> e.id in contents && contents[e.id] == LastContent(seen, e.id)
    requires |docs| == |top| && forall k :: 0 <= k < |top| ==> docs[k] == Doc(contents[top[k].id], top[k].id)
    ensures docs == Rank(seen, topN)
  {
    forall k | 0 <= k < |top| ensures docs[k] == Rank(seen, topN)[k]
    {
      assert top[k] in top;
    }
  }

  /** Before the first window nothing is done. */
  lemma QueryAllStart(windows: seq<string>, topN: nat, store: Store)
    ensures QueryAll(windows, topN, store) == Prefixed([], QueryAll(windows[0..], topN, store))
  {
    assert windows[0..] == windows;
    var r := QueryAll(windows, topN, store);
    if r.Success? {
      assert [] + r.value == r.value;
    }
  }

  /** Querying window `i` fails: that failure is the outcome of the whole run. */
  lemma QueryAllFails(windows: seq<string>, i: nat, outs: seq<seq<Match>>, topN: nat, store: Store, e: string)
    requires i < |windows| && store(windows[i], topN) == Failure(e)
    requires QueryAll(windows, topN, store) == Prefixed(outs, QueryAll(windows[i..], topN, store))
    ensures QueryAll(windows, topN, store) == Failure(e)
  {
  }

  /** Querying window `i` succeeds: its matches join those already collected. */
  lemma QueryAllStep(windows: seq<string>, i: nat, outs: seq<seq<Match>>, topN: nat, store: Store, ms: seq<Match>)
    requires i < |windows| && store(windows[i], topN) == Success(ms)
    requires QueryAll(windows, topN, store) == Prefixed(outs, QueryAll(windows[i..], topN, store))
    ensures QueryAll(windows, topN, store) == Prefixed(outs + [ms], QueryAll(windows[i + 1..], topN, store))
  {
    assert windows[i..][1..] == windows[i + 1..];
    var rest := QueryAll(windows[i + 1..], topN, store);
    if rest.Success? {
      assert outs + ([ms] + rest.value) == (outs + [ms]) + rest.value;
    }
  }

  /** After the last window, every answer has been collected. */
  lemma QueryAllEnd(windows: seq<string>, outs: seq<seq<Match>>, topN: nat, store: Store)
    requires QueryAll(windows, topN, store) == Prefixed(outs, QueryAll(windows[|windows|..], topN, store))
    ensures QueryAll(windows, topN, store) == Success(outs)
  {
    assert windows[|windows|..] == [];
    assert outs + [] == outs;
  }

  lemma SliceSnoc<T>(seen: seq<T>, ms: seq<T>, j: nat)
    requires j < |ms|
    ensures seen + ms[..j + 1] == (seen + ms[..j]) + [ms[j]]
  {
    assert ms[..j + 1] == ms[..j] + [ms[j]];
  }

  /**
   * The inner loop of the retriever: folds one window's matches into the
   * score and content dictionaries, whose key order is `order`.
   */
  method AddMatches(ms: seq<Match>, order: seq<string>, scores: map<string, Score>, contents: map<string, string>,
                    ghost seen: seq<Match>)
      returns (order': seq<string>, scores': map<string, Score>, contents': map<string, string>)
    requires Aggregated(seen, order, scores, contents)
    ensures Aggregated(seen + ms, order', scores', contents')
  {
    order', scores', contents' := order, scores, contents;
    ghost var acc := seen;
    assert seen + ms[..0] == seen;
    for j := 0 to |ms|
      invariant acc == seen + ms[..j]
      invariant Aggregated(acc, order', scores', contents')
    {
      var m := ms[j];
      AggregatedStep(acc, order', scores', contents', m);
      // A key enters the dictionaries' order when it is first stored.
      order' := if m.id in scores' then order' else order' + [m.id];
      scores' := scores'[m.id := (if m.id in scores' then scores'[m.id] else 0.0) + m.score];
      contents' := contents'[m.id := m.content];
      SliceSnoc(seen, ms, j);
      acc := acc + [m];
    }
    assert ms[..|ms|] == ms;
  }

  /**
   * The last steps of the retriever: the items of the score dictionary
   * sorted by score, highest first, cut to `topN`, each paired with its
   * content from the content dictionary.
   */
  method RankDictionaries(order: seq<string>, scores: map<string, Score>, contents: map<string, string>, topN: nat,
                          ghost seen: seq<Match>)
      returns (docs: seq<Doc>)
    requires Aggregated(seen, order, scores, contents)
    ensures docs == Rank(seen, topN)
  {
    AggregatedRanking(seen, order, scores, contents, topN);
    var items := seq(|order|, k requires 0 <= k < |order| => Entry(order[k], scores[order[k]]));
    assert items == Items(seen);
    var sorted := SortDesc(items);
    var top := sorted[..Min(topN, |sorted|)];
    docs := seq(|top|, k requires 0 <= k < |top| => Doc(contents[top[k].id], top[k].id));
    RankFromDictionaries(seen, contents, topN, top, docs);
  }

  /**
   * The loop of the retriever over the windows: one store query per window,
   * each answer folded into the dictionaries; the first failing query ends
   * the loop with its error. `queried` lists the windows the store was asked
   * about, in order, and `seen` the matches it returned.
   */
  method AggregateWindows(windows: seq<string>, topN: nat, store: Store)
      returns (status: Result<()>, order: seq<string>, scores: map<string, Score>, contents: map<string, string>,
               ghost queried: seq<string>, ghost seen: seq<Match>)
    ensures status.Success? <==> QueryAll(windows, topN, store).Success?
    ensures status.Failure? ==> QueryAll(windows, topN, store) == Failure(status.error)
    ensures status.Success? ==>
              && seen == Flatten(QueryAll(windows, topN, store).value)
              && Aggregated(seen, order, scores, contents)
              && queried == windows
    ensures queried <= windows
    ensures status.Failure? ==> QueryStopped(windows, queried, topN, store)
  {
    order, scores, contents := [], map[], map[];
    queried, seen := [], [];
    ghost var outs: seq<seq<Match>> := [];
    QueryAllStart(windows, topN, store);
    for i := 0 to |windows|
      invariant queried == windows[..i]
      invariant QueryAll(windows, topN, store) == Prefixed(outs, QueryAll(windows[i..], topN, store))
      invariant seen == Flatten(outs)
      invariant Aggregated(seen, order, scores, contents)
      invariant Answered(queried, topN, store)
    {
      var res := store(windows[i], topN);
      PrefixSnoc(windows, i);
      if res.Failure? {
        QueryAllFails(windows, i, outs, topN, store, res.error);
        QueryStops(windows, i, topN, store);
        return Failure(res.error), order, scores, contents, queried + [windows[i]], seen;
      }
      AnsweredSnoc(queried, windows[i], topN, store);
      queried := queried + [windows[i]];
      QueryAllStep(windows, i, outs, topN, store, res.value);
      order, scores, contents := AddMatches(res.value, order, scores, contents, seen);
      FlattenSnoc(outs, res.value);
      outs := outs + [res.value];
      seen := seen + res.value;
    }
    QueryAllEnd(windows, outs, topN, store);
    status := Success(());
  }

  /**
   * The retriever as the source runs it: blank text answers at once;
   * otherwise the windows, the loop over them, then sort and cut. A failure
   * inside is raised again with the retriever's prefix. `queried` lists the
   * windows the store was asked about, in order, and `counted` the calls to
   * the token counter: none for blank text, which is never windowed.
   */
  method GetContextAndIfi(data: string, topN: nat, tokens: string -> nat, store: Store)
      returns (r: Result<seq<Doc>>, ghost queried: seq<string>, ghost counted: nat)
    ensures r == ContextAndIfi(data, topN, tokens, store)
    ensures IsBlank(data) ==> queried == [] && counted == 0
    ensures !IsBlank(data) ==> counted >= 1
    ensures !IsBlank(data) ==> queried <= Windower.Windows(data, WindowSize, Stride, tokens)
    ensures r.Success? && !IsBlank(data) ==> queried == Windower.Windows(data, WindowSize, Stride, tokens)
    ensures r.Failure? ==> QueryStopped(Windower.Windows(data, WindowSize, Stride, tokens), queried, topN, store)
  {
    if IsBlank(data) {
      return Success([]), [], 0;
    }
    var windows;
    windows, counted := Windower.SplitIntoWindows(data, WindowSize, Stride, tokens);
    var status, order, scores, contents;
    ghost var seen;
    status, order, scores, contents, queried, seen := AggregateWindows(windows, topN, store);
    if status.Failure? {
      return Failure(ErrorPrefix + status.error), queried, counted;
    }
    var docs := RankDictionaries(order, scores, contents, topN, seen);
    r := Success(docs);
  }
}
