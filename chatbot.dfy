/** The chat orchestrator: the long-lived chatbot object built once from the
    dataset, its intent search and its `chat` entry point. */
module Chatbot {
  import opened Types
  import opened PyStr
  import opened Corpus
  import opened Retrieval
  import opened ContextAssembly
  import opened Generation

  /** What one `chat` call does for the records, the matched-intent set and the
      query: the fixed fallback sentence when nothing matched, otherwise the
      context assembled from the records and one grounded generation call. */
  function ChatTurn(data: seq<Record>, matched: set<string>, query: string, apiKey: Option<string>,
                    post: Request -> Result<string, string>): (x: Exchange)
    ensures |x.sent| <= 1
    ensures KeyMissing(apiKey) ==> x.sent == []
    ensures matched == {} ==> x.sent == [] && x.reply == Success(Fallback)
    ensures x.sent != [] ==>
      && Context(data, matched).Success?
      && x.sent[0] == BuildRequest(apiKey, query, Context(data, matched).value, DefaultModel).value
    ensures matched != {} && Context(data, matched).Failure? ==>
      x == Exchange(Failure(Context(data, matched).error), [])
    ensures matched != {} && Context(data, matched).Success? ==>
      x == AskGroq(apiKey, query, Context(data, matched).value, DefaultModel, post)
  {
    if matched == {} then Exchange(Success(Fallback), [])
    else
      match Context(data, matched)
      case Failure(e) => Exchange(Failure(e), [])
      case Success(context) => AskGroq(apiKey, query, context, DefaultModel, post)
  }

  /** The chatbot. Its dataset, utterance list and intent-label list are set
      once at construction and only read afterwards. The sentence-embedding
      model and the vector index are not part of this model: the index's answer
      for a query is passed to each call as `hits`. */
  class ExpertSoftChatbotRAG {
    const data: seq<Record>
    const examples: seq<string>
    const intentMap: seq<string>

    ghost predicate Valid() {
      examples == FlatExamples(data) && intentMap == FlatIntents(data)
    }

    constructor (data: seq<Record>)
      ensures this.data == data && Valid()
    {
      this.data := data;
      var ex, im := PrepareExamplesIntents(data);
      examples, intentMap := ex, im;
    }

    /** `search_top_intents`: collect the labels of the neighbours strictly
        within the threshold into a set, and list it. */
    method SearchTopIntents(hits: seq<Hit>, threshold: real) returns (topIntents: seq<string>)
      requires HitsInRange(hits, threshold, |intentMap|)
      ensures forall x :: x in topIntents <==> x in Matched(intentMap, hits, threshold)
      ensures NoDuplicates(topIntents)
    {
      var matchedIntents: set<string> := {};
      for k := 0 to |hits|
        invariant HitsInRange(hits[..k], threshold, |intentMap|)
        invariant matchedIntents == Matched(intentMap, hits[..k], threshold)
      {
        MatchedStep(intentMap, hits, k, threshold);
        if hits[k].distance < threshold {
          matchedIntents := matchedIntents + {intentMap[hits[k].index]};
        }
      }
      assert hits[..|hits|] == hits;
      topIntents := ListOfSet(matchedIntents);
    }

    /** `chat`: the fallback sentence without any request when no intent
        matched; otherwise the grounded answer, or the error that stopped it. */
    method Chat(query: string, hits: seq<Hit>, threshold: real, apiKey: Option<string>,
                post: Request -> Result<string, string>) returns (x: Exchange)
      requires Valid() && HitsInRange(hits, threshold, |FlatIntents(data)|)
      ensures x == ChatTurn(data, Matched(FlatIntents(data), hits, threshold), query, apiKey, post)
    {
      var topIntents := SearchTopIntents(hits, threshold);
      ghost var matched := Matched(intentMap, hits, threshold);
      assert (set t | t in topIntents) == matched;
      if |topIntents| == 0 {
        return Exchange(Success(Fallback), []);
      }
      assert topIntents[0] in matched;
      var context := AssembleContext(data, topIntents);
      if context.Failure? {
        return Exchange(Failure(context.error), []);
      }
      x := AskGroq(apiKey, query, context.value, DefaultModel, post);
    }
  }

  /** When no neighbour is strictly within the threshold, including when the
      search returned nothing (k = 0), chat answers the fallback sentence and
      sends no request. */
  lemma FallbackShortCircuit(data: seq<Record>, intentMap: seq<string>, hits: seq<Hit>, threshold: real,
                             query: string, apiKey: Option<string>, post: Request -> Result<string, string>)
    requires HitsInRange(hits, threshold, |intentMap|)
    requires forall h | h in hits :: threshold <= h.distance
    ensures ChatTurn(data, Matched(intentMap, hits, threshold), query, apiKey, post)
            == Exchange(Success(Fallback), [])
  {
  }

  /** Every matched intent is the label of a record that has examples: the
      search can only find intents the corpus was built from. */
  lemma MatchedFromRecords(data: seq<Record>, hits: seq<Hit>, threshold: real, x: string)
    requires HitsInRange(hits, threshold, |FlatIntents(data)|)
    requires x in Matched(FlatIntents(data), hits, threshold)
    ensures exists r :: r in data && IntentLabel(r) == x && ExamplesOf(r) != []
  {
    var h :| h in hits && h.distance < threshold && FlatIntents(data)[h.index] == x;
    var p := OwnerOf(data, h.index);
    var r := data[p.0];
    FlattenAligned(data, p.0, p.1);
    assert IntentLabel(r) == x && ExamplesOf(r) != [];
    assert r in data;
  }

  /** With every record readable and a credential present, a query that matched
      something sends exactly one request, whose prompt carries the non-empty
      context assembled from the matched records. */
  lemma GroundedRequest(data: seq<Record>, hits: seq<Hit>, threshold: real, query: string,
                        apiKey: Option<string>, post: Request -> Result<string, string>)
    requires HitsInRange(hits, threshold, |FlatIntents(data)|)
    requires Matched(FlatIntents(data), hits, threshold) != {}
    requires Readable(data, Matched(FlatIntents(data), hits, threshold))
    requires !KeyMissing(apiKey)
    ensures var matched := Matched(FlatIntents(data), hits, threshold);
      && Context(data, matched).Success?
      && Context(data, matched).value != []
      && ChatTurn(data, matched, query, apiKey, post).sent
         == [BuildRequest(apiKey, query, Context(data, matched).value, DefaultModel).value]
      && ChatTurn(data, matched, query, apiKey, post).sent[0].user
         == Prompt(query, Context(data, matched).value)
  {
    var matched := Matched(FlatIntents(data), hits, threshold);
    var x :| x in matched;
    MatchedFromRecords(data, hits, threshold, x);
    var r :| r in data && IntentLabel(r) == x && ExamplesOf(r) != [];
    var j :| 0 <= j < |data| && data[j] == r;
    ContextPartsOk(data, matched);
    MatchedRecordHasBlock(data, matched, j);
  }

  /** A record without an intent makes every chat that matched something fail
      with a KeyError, before any request is sent. */
  lemma MissingIntentBreaksChat(data: seq<Record>, matched: set<string>, query: string,
                                apiKey: Option<string>, post: Request -> Result<string, string>)
    requires matched != {}
    requires exists r :: r in data && r.intent.None?
    ensures ChatTurn(data, matched, query, apiKey, post).reply.Failure?
    ensures ChatTurn(data, matched, query, apiKey, post).sent == []
  {
    ContextPartsOk(data, matched);
  }

  /** The one-record scenario: the query "hello" finds its own example at
      distance 0, so the greeting record is the whole context of the one
      request sent. */
  lemma GreetingScenario(apiKey: Option<string>, post: Request -> Result<string, string>)
    requires !KeyMissing(apiKey)
    ensures var data := [Record(Some("greeting"), Some(["hello", "hi there"]), Some("Welcome!"))];
      && HitsInRange([Hit(0, 0.0)], DefaultThreshold, |FlatIntents(data)|)
      && Matched(FlatIntents(data), [Hit(0, 0.0)], DefaultThreshold) == {"greeting"}
      && ChatTurn(data, {"greeting"}, "hello", apiKey, post).sent[0].user
         == Prompt("hello", "Intent: greeting\nResponse: Welcome!")
  {
    var r := Record(Some("greeting"), Some(["hello", "hi there"]), Some("Welcome!"));
    var data := [r];
    GreetingLabels(r);
    var hits := [Hit(0, 0.0)];
    assert hits[..0] == [];
    GreetingContext(r);
    var c := "Intent: greeting\nResponse: Welcome!";
    assert ChatTurn(data, {"greeting"}, "hello", apiKey, post)
        == AskGroq(apiKey, "hello", c, DefaultModel, post);
  }

  lemma GreetingLabels(r: Record)
    requires r == Record(Some("greeting"), Some(["hello", "hi there"]), Some("Welcome!"))
    ensures FlatIntents([r]) == ["greeting", "greeting"]
  {
    assert [r][1..] == [];
    assert FlatIntents([r]) == RecordLabels(r) + FlatIntents([]);
    assert RecordLabels(r) == Repeat("greeting", 2);
  }

  lemma GreetingContext(r: Record)
    requires r == Record(Some("greeting"), Some(["hello", "hi there"]), Some("Welcome!"))
    ensures Context([r], {"greeting"}) == Success("Intent: greeting\nResponse: Welcome!")
  {
    var data := [r];
    assert data[..0] == [];
    assert ContextParts(data[..0], {"greeting"}) == Success([]);
    var b := Block("greeting", "Welcome!");
    assert [] + [b] == [b];
    assert ContextParts(data, {"greeting"}) == Success([b]);
    assert Join(BlockSeparator, [b]) == b;
    assert b == "Intent: greeting\nResponse: Welcome!";
  }
}
