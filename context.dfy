/** Context assembly: one `Intent: ...\nResponse: ...` block per record whose
    intent was matched, in the records' load order, joined by a blank line. */
module ContextAssembly {
  import opened Types
  import opened PyStr
  import opened Corpus

  const BlockSeparator: string := "\n\n"

  /** One context block. The intent and the response can be read back from it
      at fixed offsets. */
  function Block(intent: string, response: string): (b: string)
    ensures |b| == 19 + |intent| + |response|
    ensures b[..8] == "Intent: " && b[8..8 + |intent|] == intent
    ensures b[8 + |intent|..19 + |intent|] == "\nResponse: " && b[19 + |intent|..] == response
  {
    "Intent: " + intent + "\nResponse: " + response
  }

  /** The blocks chat collects, walking the records in order. Reading
      `item["intent"]` fails on any record without an intent, matched or not;
      reading `item["response"]` fails only on a matched record. The first
      failing record, in load order, decides the error. */
  function ContextParts(data: seq<Record>, matched: set<string>): (r: Result<seq<string>, ChatError>)
    ensures r.Success? ==> |r.value| <= |data|
    ensures r.Failure? ==> r.error in {KeyError("intent"), KeyError("response")}
  {
    if data == [] then Success([])
    else
      match ContextParts(data[..|data| - 1], matched)
      case Failure(e) => Failure(e)
      case Success(parts) =>
        var item := data[|data| - 1];
        if item.intent.None? then Failure(KeyError("intent"))
        else if item.intent.value !in matched then Success(parts)
        else if item.response.None? then Failure(KeyError("response"))
        else Success(parts + [Block(item.intent.value, item.response.value)])
  }

  /** The context string handed to the generator: it exists exactly when the
      walk succeeds, and it is empty exactly when no block was produced. */
  function Context(data: seq<Record>, matched: set<string>): (r: Result<string, ChatError>)
    ensures r.Success? <==> ContextParts(data, matched).Success?
    ensures r.Success? ==> (r.value == [] <==> ContextParts(data, matched).value == [])
  {
    match ContextParts(data, matched)
    case Failure(e) => Failure(e)
    case Success(parts) =>
      BlocksNonEmpty(data, matched);
      Success(Join(BlockSeparator, parts))
  }

  /** Every block holds at least its two fixed labels, so none is empty. */
  lemma {:induction false} BlocksNonEmpty(data: seq<Record>, matched: set<string>)
    ensures ContextParts(data, matched).Success? ==>
      forall b | b in ContextParts(data, matched).value :: 19 <= |b|
  {
    if data != [] {
      BlocksNonEmpty(data[..|data| - 1], matched);
    }
  }

  /** Every record has an intent, and every matched record a response: the
      records chat can walk without a KeyError. */
  ghost predicate Readable(data: seq<Record>, matched: set<string>) {
    forall r | r in data :: r.intent.Some? && (r.intent.value in matched ==> r.response.Some?)
  }

  /** Assembly succeeds exactly on readable records, and otherwise fails with
      the KeyError of the missing field: `"response"` when every record has an
      intent, `"intent"` when every matched record has a response. */
  lemma {:induction false} ContextPartsOk(data: seq<Record>, matched: set<string>)
    ensures ContextParts(data, matched).Success? <==> Readable(data, matched)
    ensures (forall r | r in data :: r.intent.Some?) && ContextParts(data, matched).Failure? ==>
      ContextParts(data, matched).error == KeyError("response")
    ensures ContextParts(data, matched).Failure? &&
            (forall r | r in data :: r.intent.Some? && r.intent.value in matched ==> r.response.Some?) ==>
      ContextParts(data, matched).error == KeyError("intent")
  {
    if data != [] {
      var init := data[..|data| - 1];
      assert data == init + [data[|data| - 1]];
      ContextPartsOk(init, matched);
    }
  }

  /** Walking `a + b` is walking `a`, then `b`: blocks keep load order, records
      sharing an intent each keep their own block, and an error in `a` wins
      over anything in `b`. */
  lemma {:induction false} ContextPartsConcat(a: seq<Record>, b: seq<Record>, matched: set<string>)
    ensures ContextParts(a + b, matched) ==
      match ContextParts(a, matched)
      case Failure(e) => Failure(e)
      case Success(pa) =>
        match ContextParts(b, matched)
        case Failure(e) => Failure(e)
        case Success(pb) => Success(pa + pb)
  {
    if b == [] {
      assert a + b == a;
      assert ContextParts(a, matched).Success? ==> ContextParts(a, matched).value + [] == ContextParts(a, matched).value;
    } else {
      var b0 := b[..|b| - 1];
      assert (a + b)[..|a + b| - 1] == a + b0;
      assert (a + b)[|a + b| - 1] == b[|b| - 1];
      ContextPartsConcat(a, b0, matched);
      if ContextParts(a, matched).Success? && ContextParts(b0, matched).Success? {
        var pa, pb := ContextParts(a, matched).value, ContextParts(b0, matched).value;
        forall x: string ensures pa + (pb + [x]) == (pa + pb) + [x] { }
      }
    }
  }

  /** Every matched record with its fields present yields its block. */
  lemma {:induction false} MatchedRecordHasBlock(data: seq<Record>, matched: set<string>, j: nat)
    requires j < |data|
    requires ContextParts(data, matched).Success?
    requires data[j].intent.Some? && data[j].intent.value in matched
    ensures data[j].response.Some?
    ensures Block(data[j].intent.value, data[j].response.value) in ContextParts(data, matched).value
  {
    var n := |data| - 1;
    var init := data[..n];
    if j < n {
      assert data[j] == init[j];
      MatchedRecordHasBlock(init, matched, j);
    }
  }

  /** Every block belongs to a matched record: no block is invented. */
  lemma {:induction false} BlockFromMatchedRecord(data: seq<Record>, matched: set<string>, k: nat)
    requires ContextParts(data, matched).Success?
    requires k < |ContextParts(data, matched).value|
    ensures exists r :: r in data && r.intent.Some? && r.intent.value in matched && r.response.Some?
                        && ContextParts(data, matched).value[k] == Block(r.intent.value, r.response.value)
  {
    var n := |data| - 1;
    var init := data[..n];
    var parts := ContextParts(init, matched).value;
    if k < |parts| {
      BlockFromMatchedRecord(init, matched, k);
      assert forall r | r in init :: r in data;
    } else {
      assert data[n] in data;
    }
  }

  /** No matched intent, no block (when every record has an intent). */
  lemma {:induction false} NoMatchNoContext(data: seq<Record>)
    requires forall r | r in data :: r.intent.Some?
    ensures ContextParts(data, {}) == Success([])
    ensures Context(data, {}) == Success("")
  {
    if data != [] {
      var init := data[..|data| - 1];
      assert forall r | r in init :: r in data;
      NoMatchNoContext(init);
    }
  }

  /** The loop of chat over the records, appending a block for each record whose
      intent is among the matched intents, then `"\n\n".join`. */
  method AssembleContext(data: seq<Record>, topIntents: seq<string>) returns (r: Result<string, ChatError>)
    ensures r == Context(data, set x | x in topIntents)
  {
    ghost var matched := set x | x in topIntents;
    var contextParts: seq<string> := [];
    for j := 0 to |data|
      invariant ContextParts(data[..j], matched) == Success(contextParts)
    {
      var item := data[j];
      assert data[..j + 1][..j] == data[..j];
      if item.intent.None? {
        r := Failure(KeyError("intent"));
        FailurePersists(data, j + 1, matched);
        return;
      }
      if item.intent.value in topIntents {
        if item.response.None? {
          r := Failure(KeyError("response"));
          FailurePersists(data, j + 1, matched);
          return;
        }
        contextParts := contextParts + [Block(item.intent.value, item.response.value)];
      }
    }
    assert data[..|data|] == data;
    r := Success(Join(BlockSeparator, contextParts));
  }

  /** Once a prefix of the records fails, the whole walk fails with that error. */
  lemma FailurePersists(data: seq<Record>, j: nat, matched: set<string>)
    requires j <= |data|
    requires ContextParts(data[..j], matched).Failure?
    ensures ContextParts(data, matched) == ContextParts(data[..j], matched)
  {
    assert data == data[..j] + data[j..];
    ContextPartsConcat(data[..j], data[j..], matched);
  }
}
