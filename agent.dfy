/**
 * The retrieval half of the chatbot's `agent_service`: the guard that
 * demands an attachment or a query, the join of the attachment
 * descriptions, one retrieval per non-blank description and for the query,
 * and the first-seen-wins merge of their results by document identifier.
 *
 * The attachment parser is a parameter: `descriptions` is what it returned
 * for the attachments, and `hasAttachments` tells whether any were sent.
 * The answer the language model gives for the merged documents is not part
 * of this model; a reply carries the documents it would be asked about.
 */
module Agent {
  import opened Util
  import opened Retriever

  /** How many documents each retrieval returns. */
  const TopN: nat := 3

  /** The prefix of the service's own error messages. */
  const ServiceError := "[RAG chatbot] Error: "

  /** The error raised when the request has neither attachments nor a query. */
  const MissingInput := ServiceError + "At least one of attachments or query is required"

  /** The fields of the chatbot's response that the retrieval determines. */
  datatype Reply = Reply(query: string, fileDescription: string, resources: seq<string>, context: seq<Doc>)

  /** A reply, or the body `{"error": ...}` of an HTTP 500 response. */
  datatype Response = Ok(reply: Reply) | ServerError(error: string)

  /** The texts retrieval runs on: the descriptions, then the query. */
  function Inputs(descriptions: seq<string>, query: string): seq<string>
  {
    descriptions + [query]
  }

  /** The inputs that are not blank, in order. */
  function NonBlank(inputs: seq<string>): seq<string>
  {
    if inputs == [] then []
    else (if IsBlank(inputs[0]) then [] else [inputs[0]]) + NonBlank(inputs[1..])
  }

  /** A retrieval of the top documents for one text. */
  type Retrieve = string -> Result<seq<Doc>>

  /** `get_context_and_ifi(text, top_n=3)`. */
  function Retrieval(tokens: string -> nat, store: Store): Retrieve
  {
    text => ContextAndIfi(text, TopN, tokens, store)
  }

  /**
   * One retrieval per non-blank input, in order; the first failure aborts
   * the run and is its outcome.
   */
  function Retrievals(inputs: seq<string>, retrieve: Retrieve): (r: Result<seq<seq<Doc>>>)
    ensures r.Failure? ==>
              exists k :: 0 <= k < |inputs| && !IsBlank(inputs[k]) && retrieve(inputs[k]) == Failure(r.error)
    ensures r.Success? ==>
              forall k :: 0 <= k < |inputs| && !IsBlank(inputs[k]) ==> retrieve(inputs[k]).Success?
  {
    if inputs == [] then Success([])
    else
      var rest := Retrievals(inputs[1..], retrieve);
      assert forall k :: 1 <= k < |inputs| ==> inputs[1..][k - 1] == inputs[k];
      if IsBlank(inputs[0]) then rest
      else
        match retrieve(inputs[0])
        case Failure(e) => Failure(e)
        case Success(docs) => Prefixed([docs], rest)
  }

  /**
   * The retrievals run on the non-blank inputs in order: a successful run
   * holds one result per non-blank input, that input's retrieval; a failed
   * run fails with the error of the first non-blank input whose retrieval
   * fails.
   */
  lemma {:induction false} RetrievalsSpec(inputs: seq<string>, retrieve: Retrieve)
    ensures var r, nb := Retrievals(inputs, retrieve), NonBlank(inputs);
            r.Success? ==>
              && |r.value| == |nb|
              && forall k :: 0 <= k < |nb| ==> retrieve(nb[k]) == Success(r.value[k])
    ensures var r, nb := Retrievals(inputs, retrieve), NonBlank(inputs);
            r.Failure? ==>
              exists k :: 0 <= k < |nb| && retrieve(nb[k]) == Failure(r.error)
                          && forall j :: 0 <= j < k ==> retrieve(nb[j]).Success?
  {
    if inputs != [] {
      var rest, nbRest := Retrievals(inputs[1..], retrieve), NonBlank(inputs[1..]);
      RetrievalsSpec(inputs[1..], retrieve);
      var r, nb := Retrievals(inputs, retrieve), NonBlank(inputs);
      if IsBlank(inputs[0]) {
        assert nb == nbRest;
      } else {
        assert nb == [inputs[0]] + nbRest;
        if retrieve(inputs[0]).Success? {
          var docs := retrieve(inputs[0]).value;
          assert r == Prefixed([docs], rest);
          if rest.Failure? {
            var k :| 0 <= k < |nbRest| && retrieve(nbRest[k]) == Failure(rest.error)
                     && forall j :: 0 <= j < k ==> retrieve(nbRest[j]).Success?;
            assert nb[k + 1] == nbRest[k];
            forall j | 0 <= j < k + 1 ensures retrieve(nb[j]).Success? {
              if j > 0 {
                assert nb[j] == nbRest[j - 1];
              }
            }
          } else {
            forall k | 0 <= k < |nb| ensures retrieve(nb[k]) == Success(r.value[k]) {
              if k > 0 {
                assert nb[k] == nbRest[k - 1];
              }
            }
          }
        } else {
          assert nb[0] == inputs[0];
        }
      }
    }
  }

  /** `docs` with every document whose identifier came earlier dropped. */
  function Merge(docs: seq<Doc>): seq<Doc>
  {
    if docs == [] then []
    else
      var init, last := docs[..|docs| - 1], docs[|docs| - 1];
      if last.id in DocIds(init) then Merge(init) else Merge(init) + [last]
  }

  /** `agent_service(attachments, request)`, up to the language model's answer. */
  function AgentReply(hasAttachments: bool, descriptions: seq<string>, query: string,
                      tokens: string -> nat, store: Store): (r: Response)
    ensures r.Ok? <==>
              (hasAttachments || query != "") && Retrievals(Inputs(descriptions, query), Retrieval(tokens, store)).Success?
    ensures r.ServerError? && (hasAttachments || query != "") ==>
              Retrievals(Inputs(descriptions, query), Retrieval(tokens, store)) == Failure(r.error)
    ensures r.Ok? ==> r.reply.query == query
  {
    if !hasAttachments && query == "" then ServerError(MissingInput)
    else
      match Retrievals(Inputs(descriptions, query), Retrieval(tokens, store))
      case Failure(e) => ServerError(e)
      case Success(outs) =>
        var all := Merge(Flatten(outs));
        Ok(Reply(query, Join("\n", descriptions), DocIds(all), all))
  }

  // ---------------------------------------------------------------------
  // The merge
  // ---------------------------------------------------------------------

  lemma DocIdsSnoc(docs: seq<Doc>, d: Doc)
    ensures DocIds(docs + [d]) == DocIds(docs) + [d.id]
  {
  }

  lemma MergeSnoc(docs: seq<Doc>, d: Doc)
    ensures Merge(docs + [d]) == if d.id in DocIds(docs) then Merge(docs) else Merge(docs) + [d]
  {
    assert (docs + [d])[..|docs|] == docs;
  }

  /** The merged identifiers are the identifiers seen, each once, in order of first appearance. */
  lemma {:induction false} MergeIds(docs: seq<Doc>)
    ensures DocIds(Merge(docs)) == Distinct(DocIds(docs))
  {
    if docs != [] {
      var init, last := docs[..|docs| - 1], docs[|docs| - 1];
      assert docs == init + [last];
      MergeIds(init);
      DocIdsSnoc(init, last);
      DistinctSnoc(DocIds(init), last.id);
      if last.id !in DocIds(init) {
        DocIdsSnoc(Merge(init), last);
      }
    }
  }

  /**
   * First seen wins: every merged document is the first document carrying
   * its identifier; a later one with the same identifier is dropped, not
   * written over it.
   */
  lemma {:induction false} MergeKeepsFirst(docs: seq<Doc>)
    ensures forall d :: d in Merge(docs) ==>
              d.id in DocIds(docs) && d == docs[IndexOf(DocIds(docs), d.id)]
  {
    if docs != [] {
      var init, last := docs[..|docs| - 1], docs[|docs| - 1];
      assert docs == init + [last];
      MergeKeepsFirst(init);
      DocIdsSnoc(init, last);
      forall d | d in Merge(docs)
        ensures d.id in DocIds(docs) && d == docs[IndexOf(DocIds(docs), d.id)]
      {
        if d in Merge(init) {
          IndexOfAppend(DocIds(init), [last.id], d.id);
        } else {
          assert d == last && last.id !in DocIds(init);
          assert IndexOf(DocIds(docs), d.id) == |init| by {
            assert DocIds(docs)[..|init|] == DocIds(init);
          }
        }
      }
    }
  }

  // ---------------------------------------------------------------------
  // The service
  // ---------------------------------------------------------------------

  /**
   * The request is refused with the missing-input error exactly when it has
   * neither attachments nor a query: a failed retrieval reports the
   * retriever's error instead.
   */
  lemma GuardSpec(hasAttachments: bool, descriptions: seq<string>, query: string,
                  tokens: string -> nat, store: Store)
    ensures !hasAttachments && query == "" <==>
              AgentReply(hasAttachments, descriptions, query, tokens, store) == ServerError(MissingInput)
  {
    if hasAttachments || query != "" {
      var inputs := Inputs(descriptions, query);
      var rs := Retrievals(inputs, Retrieval(tokens, store));
      if rs.Failure? {
        var k :| 0 <= k < |inputs| && !IsBlank(inputs[k]) && Retrieval(tokens, store)(inputs[k]) == Failure(rs.error);
        assert ContextAndIfi(inputs[k], TopN, tokens, store) == Failure(rs.error);
        NotMissingInput(rs.error);
      }
    }
  }

  /** No error of the retriever reads as the missing-input error. */
  lemma NotMissingInput(e: string)
    requires ErrorPrefix <= e
    ensures e != MissingInput
  {
    assert e[1] == ErrorPrefix[1] == 'S';
    assert MissingInput[1] == ServiceError[1] == 'R';
  }

  /**
   * An accepted request's reply echoes the query, joins the descriptions
   * with newlines, and its resources are the identifiers of its documents,
   * none twice, in the order they were first retrieved; each document is
   * the first one retrieved under its identifier.
   */
  lemma ReplySpec(hasAttachments: bool, descriptions: seq<string>, query: string,
                  tokens: string -> nat, store: Store)
    requires AgentReply(hasAttachments, descriptions, query, tokens, store).Ok?
    ensures var reply := AgentReply(hasAttachments, descriptions, query, tokens, store).reply;
            var docs := Flatten(Retrievals(Inputs(descriptions, query), Retrieval(tokens, store)).value);
            && reply.query == query
            && reply.fileDescription == Join("\n", descriptions)
            && reply.resources == DocIds(reply.context) == Distinct(DocIds(docs))
            && NoDuplicates(reply.resources)
            && (forall id :: id in reply.resources <==> id in DocIds(docs))
            && (forall d :: d in reply.context ==> d.id in DocIds(docs) && d == docs[IndexOf(DocIds(docs), d.id)])
  {
    var docs := Flatten(Retrievals(Inputs(descriptions, query), Retrieval(tokens, store)).value);
    MergeIds(docs);
    DistinctOrder(DocIds(docs));
    MergeKeepsFirst(docs);
  }

  /** With no descriptions the file description is empty. */
  lemma NoDescriptions(hasAttachments: bool, query: string, tokens: string -> nat, store: Store)
    ensures AgentReply(hasAttachments, [], query, tokens, store).Ok? ==>
              AgentReply(hasAttachments, [], query, tokens, store).reply.fileDescription == ""
  {
  }

  lemma RetrievalsStart(inputs: seq<string>, retrieve: Retrieve)
    ensures Retrievals(inputs, retrieve) == Prefixed([], Retrievals(inputs[0..], retrieve))
  {
    assert inputs[0..] == inputs;
    var r := Retrievals(inputs, retrieve);
    if r.Success? {
      assert [] + r.value == r.value;
    }
  }

  lemma RetrievalsSkip(inputs: seq<string>, i: nat, outs: seq<seq<Doc>>, retrieve: Retrieve)
    requires i < |inputs| && IsBlank(inputs[i])
    requires Retrievals(inputs, retrieve) == Prefixed(outs, Retrievals(inputs[i..], retrieve))
    ensures Retrievals(inputs, retrieve) == Prefixed(outs, Retrievals(inputs[i + 1..], retrieve))
  {
    assert inputs[i..][1..] == inputs[i + 1..];
  }

  lemma RetrievalsFails(inputs: seq<string>, i: nat, outs: seq<seq<Doc>>, retrieve: Retrieve, e: string)
    requires i < |inputs| && !IsBlank(inputs[i]) && retrieve(inputs[i]) == Failure(e)
    requires Retrievals(inputs, retrieve) == Prefixed(outs, Retrievals(inputs[i..], retrieve))
    ensures Retrievals(inputs, retrieve) == Failure(e)
  {
  }

  lemma RetrievalsStep(inputs: seq<string>, i: nat, outs: seq<seq<Doc>>, retrieve: Retrieve, docs: seq<Doc>)
    requires i < |inputs| && !IsBlank(inputs[i]) && retrieve(inputs[i]) == Success(docs)
    requires Retrievals(inputs, retrieve) == Prefixed(outs, Retrievals(inputs[i..], retrieve))
    ensures Retrievals(inputs, retrieve) == Prefixed(outs + [docs], Retrievals(inputs[i + 1..], retrieve))
  {
    assert inputs[i..][1..] == inputs[i + 1..];
    var rest := Retrievals(inputs[i + 1..], retrieve);
    if rest.Success? {
      assert outs + ([docs] + rest.value) == (outs + [docs]) + rest.value;
    }
  }

  lemma RetrievalsEnd(inputs: seq<string>, outs: seq<seq<Doc>>, retrieve: Retrieve)
    requires Retrievals(inputs, retrieve) == Prefixed(outs, Retrievals(inputs[|inputs|..], retrieve))
    ensures Retrievals(inputs, retrieve) == Success(outs)
  {
    assert |inputs[|inputs|..]| == 0;
    assert outs + [] == outs;
  }

  /** The non-blank inputs are exactly the inputs that are not blank. */
  lemma {:induction false} NonBlankElements(inputs: seq<string>)
    ensures forall x :: x in NonBlank(inputs) <==> x in inputs && !IsBlank(x)
  {
    if inputs != [] {
      NonBlankElements(inputs[1..]);
      assert inputs == [inputs[0]] + inputs[1..];
    }
  }

  lemma NonBlankSnoc(inputs: seq<string>, i: nat)
    requires i < |inputs|
    ensures NonBlank(inputs[..i + 1]) == NonBlank(inputs[..i]) + (if IsBlank(inputs[i]) then [] else [inputs[i]])
  {
    assert inputs[..i + 1] == inputs[..i] + [inputs[i]];
    NonBlankAppend(inputs[..i], [inputs[i]]);
  }

  lemma {:induction false} NonBlankAppend(a: seq<string>, b: seq<string>)
    ensures NonBlank(a + b) == NonBlank(a) + NonBlank(b)
  {
    if a != [] {
      assert (a + b)[1..] == a[1..] + b;
      NonBlankAppend(a[1..], b);
    } else {
      assert a + b == b;
    }
  }

  /**
   * `agent_service` as the source runs it: the guard, the joined
   * descriptions, then the retrievals and the merge of their pairs.
   * `retrieved` lists the inputs retrieval ran on, in order.
   */
  method AgentService(hasAttachments: bool, descriptions: seq<string>, query: string,
                      tokens: string -> nat, store: Store)
      returns (r: Response, ghost retrieved: seq<string>)
    ensures r == AgentReply(hasAttachments, descriptions, query, tokens, store)
    ensures !hasAttachments && query == "" ==> retrieved == []
    ensures retrieved <= NonBlank(Inputs(descriptions, query))
    ensures r.Ok? ==> retrieved == NonBlank(Inputs(descriptions, query))
    ensures (hasAttachments || query != "") && r.ServerError? ==>
              RetrievalStopped(NonBlank(Inputs(descriptions, query)), retrieved, Retrieval(tokens, store))
  {
    if !hasAttachments && query == "" {
      return ServerError(MissingInput), [];
    }
    var joined := Join("\n", descriptions);
    var status, all;
    status, all, retrieved := RetrieveAll(descriptions + [query], tokens, store);
    if status.Failure? {
      return ServerError(status.error), retrieved;
    }
    var resources := seq(|all|, k requires 0 <= k < |all| => all[k].id);
    r := Ok(Reply(query, joined, resources, all));
  }

  /**
   * The loop of `agent_service` over the descriptions and the query: every
   * non-blank input is retrieved, and its pairs are appended unless their
   * identifier is already in the set of those seen; the first failing
   * retrieval ends the loop with its error. `retrieved` lists the inputs
   * retrieval ran on, in order.
   */
  method RetrieveAll(inputs: seq<string>, tokens: string -> nat, store: Store)
      returns (status: Result<()>, all: seq<Doc>, ghost retrieved: seq<string>)
    ensures status.Success? <==> Retrievals(inputs, Retrieval(tokens, store)).Success?
    ensures status.Failure? ==> Retrievals(inputs, Retrieval(tokens, store)) == Failure(status.error)
    ensures status.Success? ==>
              all == Merge(Flatten(Retrievals(inputs, Retrieval(tokens, store)).value))
              && retrieved == NonBlank(inputs)
    ensures retrieved <= NonBlank(inputs)
    ensures status.Failure? ==> RetrievalStopped(NonBlank(inputs), retrieved, Retrieval(tokens, store))
  {
    retrieved, all := [], [];
    var unique: set<string> := {};
    ghost var retrieve := Retrieval(tokens, store);
    ghost var outs: seq<seq<Doc>> := [];
    RetrievalsStart(inputs, retrieve);
    for i := 0 to |inputs|
      invariant retrieved == NonBlank(inputs[..i])
      invariant Retrievals(inputs, retrieve) == Prefixed(outs, Retrievals(inputs[i..], retrieve))
      invariant all == Merge(Flatten(outs))
      invariant forall id :: id in unique <==> id in DocIds(all)
      invariant AllRetrieved(retrieved, retrieve)
    {
      NonBlankSnoc(inputs, i);
      if IsBlank(inputs[i]) {
        RetrievalsSkip(inputs, i, outs, retrieve);
        continue;
      }
      var similar := RetrieveOne(inputs[i], tokens, store);
      if similar.Failure? {
        RetrievalsFails(inputs, i, outs, retrieve, similar.error);
        NonBlankPrefix(inputs, i + 1);
        RetrievalStops(NonBlank(inputs), retrieved, inputs[i], retrieve);
        return Failure(similar.error), all, retrieved + [inputs[i]];
      }
      AllRetrievedSnoc(retrieved, inputs[i], retrieve);
      retrieved := retrieved + [inputs[i]];
      RetrievalsStep(inputs, i, outs, retrieve, similar.value);
      all, unique := MergeInto(all, unique, similar.value, Flatten(outs));
      FlattenSnoc(outs, similar.value);
      outs := outs + [similar.value];
    }
    RetrievalsEnd(inputs, outs, retrieve);
    assert inputs[..|inputs|] == inputs;
    status := Success(());
  }

  lemma {:induction false} NonBlankPrefix(inputs: seq<string>, i: nat)
    requires i <= |inputs|
    ensures NonBlank(inputs[..i]) <= NonBlank(inputs)
    decreases |inputs| - i
  {
    if i == |inputs| {
      assert inputs[..i] == inputs;
    } else {
      NonBlankPrefix(inputs, i + 1);
      NonBlankSnoc(inputs, i);
    }
  }

  /** Every one of `xs` was retrieved successfully. */
  predicate AllRetrieved(xs: seq<string>, retrieve: Retrieve)
  {
    forall j :: 0 <= j < |xs| ==> retrieve(xs[j]).Success?
  }

  /**
   * A run over the non-blank inputs `nb` that stopped right after its first
   * failing retrieval: `retrieved` holds the inputs up to and including that
   * one.
   */
  predicate RetrievalStopped(nb: seq<string>, retrieved: seq<string>, retrieve: Retrieve)
  {
    exists k :: 0 <= k < |nb| && retrieved == nb[..k + 1]
                && retrieve(nb[k]).Failure?
                && forall j :: 0 <= j < k ==> retrieve(nb[j]).Success?
  }

  lemma AllRetrievedSnoc(xs: seq<string>, x: string, retrieve: Retrieve)
    requires AllRetrieved(xs, retrieve) && retrieve(x).Success?
    ensures AllRetrieved(xs + [x], retrieve)
  {
    assert forall k :: 0 <= k < |xs| ==> (xs + [x])[k] == xs[k];
  }

  /** Every input so far was retrieved and `x`, the next non-blank one, fails: the run stops there. */
  lemma RetrievalStops(nb: seq<string>, retrieved: seq<string>, x: string, retrieve: Retrieve)
    requires retrieved + [x] <= nb
    requires AllRetrieved(retrieved, retrieve) && retrieve(x).Failure?
    ensures RetrievalStopped(nb, retrieved + [x], retrieve)
  {
    var k := |retrieved|;
    assert retrieved + [x] == nb[..k + 1];
    assert nb[k] == x;
    forall j | 0 <= j < k
      ensures retrieve(nb[j]).Success?
    {
      assert nb[j] == retrieved[j];
    }
  }

  /** `get_context_and_ifi(text, top_n=3)` on one input of the service. */
  method RetrieveOne(text: string, tokens: string -> nat, store: Store) returns (similar: Result<seq<Doc>>)
    ensures similar == Retrieval(tokens, store)(text)
  {
    ghost var queried, counted;
    similar, queried, counted := GetContextAndIfi(text, TopN, tokens, store);
  }

  /** An identifier is among the merged pairs exactly when some pair carries it. */
  lemma MergeSeen(docs: seq<Doc>, id: string)
    ensures id in DocIds(Merge(docs)) <==> id in DocIds(docs)
  {
    MergeIds(docs);
    DistinctElements(DocIds(docs));
  }

  /** Adding a pair's identifier to the set keeps it equal to the identifiers of the list it is appended to. */
  lemma UniqueSnoc(all: seq<Doc>, unique: set<string>, d: Doc)
    requires forall id :: id in unique <==> id in DocIds(all)
    ensures forall id :: id in unique + {d.id} <==> id in DocIds(all + [d])
  {
    DocIdsSnoc(all, d);
  }

  /**
   * The inner loop of `agent_service`: appends each pair of `docs` whose
   * identifier is not yet in `unique`, and adds that identifier to it.
   */
  method MergeInto(all: seq<Doc>, unique: set<string>, docs: seq<Doc>, ghost before: seq<Doc>)
      returns (all': seq<Doc>, unique': set<string>)
    requires all == Merge(before)
    requires forall id :: id in unique <==> id in DocIds(all)
    ensures all' == Merge(before + docs)
    ensures forall id :: id in unique' <==> id in DocIds(all')
  {
    all', unique' := all, unique;
    ghost var acc := before;
    assert before + docs[..0] == before;
    for j := 0 to |docs|
      invariant acc == before + docs[..j]
      invariant all' == Merge(acc)
      invariant forall id :: id in unique' <==> id in DocIds(all')
    {
      var d := docs[j];
      MergeSnoc(acc, d);
      MergeSeen(acc, d.id);
      if d.id !in unique' {
        UniqueSnoc(all', unique', d);
        unique' := unique' + {d.id};
        all' := all' + [d];
      }
      PrefixSnoc(docs, j);
      acc := acc + [d];
    }
    assert docs[..|docs|] == docs;
  }
}
