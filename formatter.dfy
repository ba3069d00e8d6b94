/**
 * `render_histories`: the chatbot's earlier exchanges rendered as text for
 * the language model's prompt, one four-line entry per exchange, entries
 * separated by a single newline.
 */
module Formatter {
  import opened Util

  /**
   * One earlier exchange. `result` is the text the answer renders as; the
   * answer's own structure is not part of this model.
   */
  datatype History = History(query: string, fileDescription: string, resources: seq<string>, result: string)

  /** The entry of one exchange: `- Q: q\n  FileDesc: fd\n  Resources: r1, r2\n  Result: r`. */
  function Entry(h: History): string
  {
    "- Q: " + h.query + "\n" + "  FileDesc: " + h.fileDescription + "\n"
    + "  Resources: " + Join(", ", h.resources) + "\n" + "  Result: " + h.result
  }

  /** The entries of `items`, in order. */
  function Entries(items: seq<History>): (r: seq<string>)
    ensures |r| == |items| && forall k :: 0 <= k < |items| ==> r[k] == Entry(items[k])
  {
    if items == [] then [] else Entries(items[..|items| - 1]) + [Entry(items[|items| - 1])]
  }

  /** `render_histories(items)`. */
  function Render(items: seq<History>): string
  {
    Join("\n", Entries(items))
  }

  /**
   * The source's loop: one entry appended to `rendered` per exchange, then
   * the entries joined with newlines.
   */
  method RenderHistories(items: seq<History>) returns (text: string)
    ensures text == Render(items)
    ensures items == [] ==> text == ""
  {
    var rendered: seq<string> := [];
    for i := 0 to |items|
      invariant rendered == Entries(items[..i])
    {
      assert items[..i + 1][..i] == items[..i];
      rendered := rendered + [Entry(items[i])];
    }
    assert items[..|items|] == items;
    text := Join("\n", rendered);
  }

  // ---------------------------------------------------------------------
  // Splitting on a separator, the inverse of joining
  // ---------------------------------------------------------------------

  /** Python's `s.split(c)` for a one-character separator. */
  function Split(s: string, c: char): (r: seq<string>)
    ensures |r| >= 1
  {
    if s == [] then [""]
    else if s[0] == c then [""] + Split(s[1..], c)
    else
      var rest := Split(s[1..], c);
      [[s[0]] + rest[0]] + rest[1..]
  }

  /** A text without the separator splits into itself. */
  lemma {:induction false} SplitNone(s: string, c: char)
    requires c !in s
    ensures Split(s, c) == [s]
  {
    if s != [] {
      SplitNone(s[1..], c);
      assert [s[0]] + s[1..] == s;
    }
  }

  /** Splitting `p + c + rest`, where `p` holds no `c`, yields `p` and then the pieces of `rest`. */
  lemma {:induction false} SplitCons(p: string, rest: string, c: char)
    requires c !in p
    ensures Split(p + [c] + rest, c) == [p] + Split(rest, c)
  {
    var s := p + [c] + rest;
    if p == [] {
      assert s == [c] + rest;
      assert s[1..] == rest;
    } else {
      assert s[1..] == p[1..] + [c] + rest;
      SplitCons(p[1..], rest, c);
      assert [p[0]] + p[1..] == p;
    }
  }

  /** Joining pieces that hold no separator and splitting again gives the pieces back. */
  lemma {:induction false} SplitJoin(parts: seq<string>, c: char)
    requires parts != []
    requires forall k :: 0 <= k < |parts| ==> c !in parts[k]
    ensures Split(Join([c], parts), c) == parts
  {
    if |parts| == 1 {
      SplitNone(parts[0], c);
    } else {
      SplitJoin(parts[1..], c);
      SplitCons(parts[0], Join([c], parts[1..]), c);
      assert [parts[0]] + parts[1..] == parts;
    }
  }

  // ---------------------------------------------------------------------
  // The shape of the rendered text
  // ---------------------------------------------------------------------

  /** The four lines of one entry. */
  function EntryLines(h: History): seq<string>
  {
    ["- Q: " + h.query, "  FileDesc: " + h.fileDescription,
     "  Resources: " + Join(", ", h.resources), "  Result: " + h.result]
  }

  /** The lines of all entries, in order. */
  function AllLines(items: seq<History>): (r: seq<string>)
    ensures |r| == 4 * |items|
  {
    if items == [] then [] else AllLines(items[..|items| - 1]) + EntryLines(items[|items| - 1])
  }

  /** No field of the exchange holds a line break. */
  predicate SingleLine(h: History)
  {
    && '\n' !in h.query && '\n' !in h.fileDescription && '\n' !in h.result
    && forall k :: 0 <= k < |h.resources| ==> '\n' !in h.resources[k]
  }

  /** An entry is its four lines joined with newlines. */
  lemma EntryIsLines(h: History)
    ensures Entry(h) == Join("\n", EntryLines(h))
  {
    var l := EntryLines(h);
    var a, b, c, d := l[0], l[1], l[2], l[3];
    assert l[3..] == [d];
    assert l[2..] == [c] + l[3..] && l[1..] == [b] + l[2..];
    calc {
      Join("\n", l);
      a + "\n" + Join("\n", l[1..]);
      a + "\n" + (b + "\n" + Join("\n", l[2..]));
      a + "\n" + (b + "\n" + (c + "\n" + d));
      a + "\n" + b + "\n" + c + "\n" + d;
    }
  }

  /** Newlines joining one run of lines, then another, join their concatenation. */
  lemma RenderSnoc(items: seq<History>, h: History)
    requires items != []
    ensures Render(items + [h]) == Render(items) + "\n" + Entry(h)
  {
    assert (items + [h])[..|items|] == items;
    JoinConcat("\n", Entries(items), [Entry(h)]);
  }

  /** The rendered text is all entries' lines joined with newlines. */
  lemma {:induction false} RenderIsLines(items: seq<History>)
    requires items != []
    ensures Render(items) == Join("\n", AllLines(items))
  {
    var init, h := items[..|items| - 1], items[|items| - 1];
    EntryIsLines(h);
    if init == [] {
      assert AllLines(items) == EntryLines(h);
    } else {
      assert items == init + [h];
      RenderIsLines(init);
      RenderSnoc(init, h);
      JoinConcat("\n", AllLines(init), EntryLines(h));
    }
  }

  /** A resource name without a line break joins into a Resources line without one. */
  lemma {:induction false} JoinNoBreak(sep: string, parts: seq<string>)
    requires '\n' !in sep && forall k :: 0 <= k < |parts| ==> '\n' !in parts[k]
    ensures '\n' !in Join(sep, parts)
  {
    if |parts| > 1 {
      JoinNoBreak(sep, parts[1..]);
    }
  }

  lemma {:induction false} AllLinesSingle(items: seq<History>)
    requires forall k :: 0 <= k < |items| ==> SingleLine(items[k])
    ensures forall k :: 0 <= k < |AllLines(items)| ==> '\n' !in AllLines(items)[k]
  {
    if items != [] {
      var init, h := items[..|items| - 1], items[|items| - 1];
      AllLinesSingle(init);
      JoinNoBreak(", ", h.resources);
    }
  }

  /**
   * When no field holds a line break, the rendered text splits at its line
   * breaks into exactly the four lines of each entry, entry after entry:
   * one entry per exchange, in order, one newline between entries and none
   * after the last.
   */
  lemma RenderedLines(items: seq<History>)
    requires items != []
    requires forall k :: 0 <= k < |items| ==> SingleLine(items[k])
    ensures Split(Render(items), '\n') == AllLines(items)
    ensures |Split(Render(items), '\n')| == 4 * |items|
  {
    RenderIsLines(items);
    AllLinesSingle(items);
    SplitJoin(AllLines(items), '\n');
  }

  /** Line `4k + j` of the rendered text is line `j` of entry `k`. */
  lemma {:induction false} AllLinesAt(items: seq<History>, k: nat, j: nat)
    requires k < |items| && j < 4
    ensures AllLines(items)[4 * k + j] == EntryLines(items[k])[j]
  {
    var init := items[..|items| - 1];
    if k < |init| {
      AllLinesAt(init, k, j);
      assert items[k] == init[k];
    }
  }
}
