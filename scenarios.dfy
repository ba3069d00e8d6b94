/**
 * The retriever's ranking on concrete store answers: those of the
 * repository's own retriever tests (tests/test_similarity_retriever.py),
 * one answer per window, three matches each; and a text that fits one
 * window, answered with two matches.
 */
module Scenarios {
  import opened Util
  import opened Retriever

  /** The store's answer for the first window. */
  const Window1: seq<Match> := [Match("content2", "IFI_2", 0.95), Match("content1", "IFI_1", 0.85), Match("content3", "IFI_3", 0.75)]
  /** The store's answer for the second window. */
  const Window2: seq<Match> := [Match("content2", "IFI_2", 0.92), Match("content4", "IFI_4", 0.82), Match("content1", "IFI_1", 0.72)]
  /** The store's answer for the third window. */
  const Window3: seq<Match> := [Match("content2", "IFI_2", 0.88), Match("content5", "IFI_5", 0.85), Match("content6", "IFI_6", 0.70)]

  /** The total over a three-match answer is the sum of the scores of the matches naming `id`. */
  lemma AnswerTotal(w: seq<Match>, id: string)
    requires |w| == 3
    ensures TotalScore(w, id)
            == (if w[0].id == id then w[0].score else 0.0)
             + (if w[1].id == id then w[1].score else 0.0)
             + (if w[2].id == id then w[2].score else 0.0)
  {
    assert w == [w[0]] + [w[1]] + [w[2]];
    assert [] + [w[0]] == [w[0]];
    TotalScoreSnoc([], w[0], id);
    TotalScoreSnoc([w[0]], w[1], id);
    TotalScoreSnoc([w[0]] + [w[1]], w[2], id);
  }

  /** The three identifiers of the first window are distinct. */
  lemma Window1Distinct()
    ensures Distinct(Ids(Window1)) == ["IFI_2", "IFI_1", "IFI_3"]
  {
    var a, b, c := "IFI_2", "IFI_1", "IFI_3";
    assert Ids(Window1) == [a] + [b] + [c];
    assert [] + [a] == [a];
    DistinctSnoc([], a);
    DistinctSnoc([a], b);
    DistinctSnoc([a] + [b], c);
  }

  /**
   * One window: IFI_2, the best match of the only window, is ranked first
   * with its content, and asking for four pairs gives the three there are.
   */
  lemma OneWindow()
    ensures |Rank(Window1, 4)| == 3
    ensures Rank(Window1, 4)[0] == Doc("content2", "IFI_2")
  {
    var ms := Window1;
    forall id | id != "IFI_2"
      ensures TotalScore(ms, id) <= 0.85
    {
      AnswerTotal(ms, id);
    }
    AnswerTotal(ms, "IFI_2");
    assert Ids(ms)[0] == "IFI_2";
    Window1Distinct();
    assert forall m :: m in ms && m.id == "IFI_2" ==> m.content == "content2";
    RankedFirst(ms, 4, "IFI_2");
    RankSpec(ms, 4);
  }

  /** The three windows' answers, in window order. */
  const AllAnswers: seq<Match> := Window1 + Window2 + Window3

  /** Over the three windows IFI_2 totals 0.95 + 0.92 + 0.88 = 2.75 and no other identifier more than 1.57. */
  lemma ThreeWindowTotals(id: string)
    ensures id == "IFI_2" ==> TotalScore(AllAnswers, id) == 2.75
    ensures id != "IFI_2" ==> TotalScore(AllAnswers, id) <= 1.57
  {
    TotalScoreAppend(Window1, Window2, id);
    TotalScoreAppend(Window1 + Window2, Window3, id);
    AnswerTotal(Window1, id);
    AnswerTotal(Window2, id);
    AnswerTotal(Window3, id);
  }

  /** At least three identifiers are seen over the three windows. */
  lemma ThreeWindowIds()
    ensures |Distinct(Ids(AllAnswers))| >= 3
    ensures "IFI_2" in Ids(AllAnswers)
  {
    assert Ids(AllAnswers)[0] == "IFI_2";
    assert Ids(AllAnswers) == Ids(Window1) + Ids(Window2 + Window3);
    Window1Distinct();
    DistinctGrows(Ids(Window1), Ids(Window2 + Window3));
  }

  /** Every match naming IFI_2 carries content2. */
  lemma ThreeWindowContent()
    ensures LastContent(AllAnswers, "IFI_2") == "content2"
  {
    assert Ids(AllAnswers)[0] == "IFI_2";
    assert forall m :: m in AllAnswers && m.id == "IFI_2" ==> m.content == "content2";
  }

  /**
   * Three windows: IFI_2 appears in every window and accumulates the
   * highest total, so it is ranked first with its content among the three
   * pairs returned.
   */
  lemma ThreeWindows()
    ensures |Rank(AllAnswers, 3)| == 3
    ensures Rank(AllAnswers, 3)[0] == Doc("content2", "IFI_2")
  {
    forall id ensures id != "IFI_2" ==> TotalScore(AllAnswers, id) < TotalScore(AllAnswers, "IFI_2")
    {
      ThreeWindowTotals(id);
      ThreeWindowTotals("IFI_2");
    }
    ThreeWindowIds();
    ThreeWindowContent();
    RankedFirst(AllAnswers, 3, "IFI_2");
    RankSpec(AllAnswers, 3);
  }

  /** The answer of the single-window scenario: two matches, the better one first. */
  const TwoMatches: seq<Match> := [Match("c1", "D1", 0.9), Match("c2", "D2", 0.8)]

  /** D1 totals 0.9 and D2 0.8, each seen once. */
  lemma TwoMatchesTotals(id: string)
    ensures TotalScore(TwoMatches, id) == (if id == "D1" then 0.9 else if id == "D2" then 0.8 else 0.0)
  {
    var ms := TwoMatches;
    assert ms == [ms[0]] + [ms[1]];
    assert [] + [ms[0]] == [ms[0]];
    TotalScoreSnoc([], ms[0], id);
    TotalScoreSnoc([ms[0]], ms[1], id);
  }

  /** Two identifiers are seen, D1 first. */
  lemma TwoMatchesIds()
    ensures Distinct(Ids(TwoMatches)) == ["D1", "D2"]
  {
    assert Ids(TwoMatches) == ["D1"] + ["D2"];
    assert [] + ["D1"] == ["D1"];
    DistinctSnoc([], "D1");
    DistinctSnoc(["D1"], "D2");
  }

  /** Both matches are kept, and D1, the better one, comes first with its content. */
  lemma TwoMatchesFirst()
    ensures |Rank(TwoMatches, 3)| == 2
    ensures Rank(TwoMatches, 3)[0] == Doc("c1", "D1")
  {
    forall id ensures TotalScore(TwoMatches, id) == (if id == "D1" then 0.9 else if id == "D2" then 0.8 else 0.0)
    {
      TwoMatchesTotals(id);
    }
    TwoMatchesIds();
    assert Ids(TwoMatches)[0] == "D1";
    RankedFirst(TwoMatches, 3, "D1");
    RankSpec(TwoMatches, 3);
  }

  /** D2 comes second, with its content. */
  lemma TwoMatchesSecond()
    ensures |Rank(TwoMatches, 3)| == 2
    ensures Rank(TwoMatches, 3)[1] == Doc("c2", "D2")
  {
    var ms := TwoMatches;
    TwoMatchesFirst();
    RankSpec(ms, 3);
    var r := Rank(ms, 3);
    assert r[1].id == "D2" by {
      assert DocIds(r)[1] != DocIds(r)[0];
      assert r[1].id in Ids(ms);
      assert Ids(ms) == ["D1", "D2"];
    }
    assert r[1].content == "c2" by {
      assert ms[1].id == "D2" && ms[1].content == "c2";
    }
  }

  /** Both matches are kept, the better one first, each with its own content. */
  lemma TwoMatchesRank()
    ensures Rank(TwoMatches, 3) == [Doc("c1", "D1"), Doc("c2", "D2")]
  {
    TwoMatchesFirst();
    TwoMatchesSecond();
  }

  /**
   * A text within the window budget, answered with `("c1", "D1", 0.9)` and
   * `("c2", "D2", 0.8)`, gives both pairs, best first.
   */
  lemma SingleWindowAnswer(data: string, tokens: string -> nat, store: Store)
    requires !IsBlank(data) && tokens(data) <= WindowSize
    requires store(data, 3) == Success(TwoMatches)
    ensures ContextAndIfi(data, 3, tokens, store) == Success([Doc("c1", "D1"), Doc("c2", "D2")])
  {
    OneWindowRetrieval(data, 3, tokens, store, TwoMatches);
    TwoMatchesRank();
  }
}
