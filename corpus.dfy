/** The knowledge base and its flattening into two aligned lists: the stripped
    example utterances (one per row of the embedding matrix) and the intent
    label that owns each of them. */
module Corpus {
  import opened Types
  import opened PyStr

  /** One dataset object. Each field may be absent from the JSON object. */
  datatype Record = Record(intent: Option<string>, examples: Option<seq<string>>, response: Option<string>)

  /** `item.get("intent", "")`. */
  function IntentLabel(r: Record): string {
    if r.intent.Some? then r.intent.value else ""
  }

  /** `item.get("examples", [])`. */
  function ExamplesOf(r: Record): seq<string> {
    if r.examples.Some? then r.examples.value else []
  }

  /** How many corpus entries the records produce. */
  function TotalExamples(data: seq<Record>): nat {
    if data == [] then 0 else |ExamplesOf(data[0])| + TotalExamples(data[1..])
  }

  function StripAll(xs: seq<string>): (ys: seq<string>)
    ensures |ys| == |xs|
  {
    if xs == [] then [] else [Strip(xs[0])] + StripAll(xs[1..])
  }

  function Repeat(x: string, n: nat): (ys: seq<string>)
    ensures |ys| == n
  {
    if n == 0 then [] else [x] + Repeat(x, n - 1)
  }

  /** The utterances one record contributes, and their labels. */
  function RecordExamples(r: Record): seq<string> { StripAll(ExamplesOf(r)) }
  function RecordLabels(r: Record): seq<string> { Repeat(IntentLabel(r), |ExamplesOf(r)|) }

  /** The utterance list: every record's examples, stripped, records in order.
      It has one entry per example string of the records. */
  function FlatExamples(data: seq<Record>): (xs: seq<string>)
    ensures |xs| == TotalExamples(data)
  {
    if data == [] then [] else RecordExamples(data[0]) + FlatExamples(data[1..])
  }

  /** The intent-label list: one copy of a record's label per example it has,
      so it is exactly as long as the utterance list. */
  function FlatIntents(data: seq<Record>): (ls: seq<string>)
    ensures |ls| == TotalExamples(data)
  {
    if data == [] then [] else RecordLabels(data[0]) + FlatIntents(data[1..])
  }

  lemma {:induction false} StripAllAt(xs: seq<string>, e: nat)
    requires e < |xs|
    ensures StripAll(xs)[e] == Strip(xs[e])
  {
    if e > 0 { StripAllAt(xs[1..], e - 1); }
  }

  lemma {:induction false} RepeatAt(x: string, n: nat, e: nat)
    requires e < n
    ensures Repeat(x, n)[e] == x
  {
    if e > 0 { RepeatAt(x, n - 1, e - 1); }
  }

  /** Flattening visits the records in order: flattening a concatenation is
      the concatenation of the flattenings. */
  lemma FlattenConcat(a: seq<Record>, b: seq<Record>)
    ensures FlatExamples(a + b) == FlatExamples(a) + FlatExamples(b)
    ensures FlatIntents(a + b) == FlatIntents(a) + FlatIntents(b)
    ensures TotalExamples(a + b) == TotalExamples(a) + TotalExamples(b)
  {
    FlatExamplesConcat(a, b);
    FlatIntentsConcat(a, b);
    TotalConcat(a, b);
  }

  lemma {:induction false} FlatExamplesConcat(a: seq<Record>, b: seq<Record>)
    ensures FlatExamples(a + b) == FlatExamples(a) + FlatExamples(b)
  {
    if a == [] {
      assert a + b == b;
    } else {
      assert (a + b)[0] == a[0] && (a + b)[1..] == a[1..] + b;
      FlatExamplesConcat(a[1..], b);
      var x, y, z := RecordExamples(a[0]), FlatExamples(a[1..]), FlatExamples(b);
      assert FlatExamples(a + b) == x + (y + z);
      assert x + (y + z) == (x + y) + z;
    }
  }

  lemma {:induction false} FlatIntentsConcat(a: seq<Record>, b: seq<Record>)
    ensures FlatIntents(a + b) == FlatIntents(a) + FlatIntents(b)
  {
    if a == [] {
      assert a + b == b;
    } else {
      assert (a + b)[0] == a[0] && (a + b)[1..] == a[1..] + b;
      FlatIntentsConcat(a[1..], b);
      var x, y, z := RecordLabels(a[0]), FlatIntents(a[1..]), FlatIntents(b);
      assert FlatIntents(a + b) == x + (y + z);
      assert x + (y + z) == (x + y) + z;
    }
  }

  lemma {:induction false} TotalConcat(a: seq<Record>, b: seq<Record>)
    ensures TotalExamples(a + b) == TotalExamples(a) + TotalExamples(b)
  {
    if a == [] {
      assert a + b == b;
    } else {
      assert (a + b)[0] == a[0] && (a + b)[1..] == a[1..] + b;
      TotalConcat(a[1..], b);
    }
  }

  /** Example `e` of record `j` sits at position `TotalExamples(data[..j]) + e`
      of both lists: stripped in one, as its record's label in the other. */
  lemma {:induction false} FlattenAligned(data: seq<Record>, j: nat, e: nat)
    requires j < |data| && e < |ExamplesOf(data[j])|
    ensures TotalExamples(data[..j]) + e < |FlatExamples(data)| == |FlatIntents(data)|
    ensures FlatExamples(data)[TotalExamples(data[..j]) + e] == Strip(ExamplesOf(data[j])[e])
    ensures FlatIntents(data)[TotalExamples(data[..j]) + e] == IntentLabel(data[j])
  {
    var pre, post := data[..j], data[j + 1..];
    assert data == pre + ([data[j]] + post);
    FlattenConcat(pre, [data[j]] + post);
    FlattenConcat([data[j]], post);
    assert FlatExamples([data[j]]) == RecordExamples(data[j]) + FlatExamples([]);
    assert FlatIntents([data[j]]) == RecordLabels(data[j]) + FlatIntents([]);
    StripAllAt(ExamplesOf(data[j]), e);
    RepeatAt(IntentLabel(data[j]), |ExamplesOf(data[j])|, e);
  }

  /** The record and example that own position `i` of the flattened lists:
      every entry comes from one example of one record. */
  function OwnerOf(data: seq<Record>, i: nat): (p: (nat, nat))
    requires i < TotalExamples(data)
    ensures p.0 < |data| && p.1 < |ExamplesOf(data[p.0])|
    ensures i == TotalExamples(data[..p.0]) + p.1
  {
    var n := |ExamplesOf(data[0])|;
    if i < n then
      assert data[..0] == [];
      (0, i)
    else
      var q := OwnerOf(data[1..], i - n);
      assert data[..q.0 + 1] == [data[0]] + data[1..][..q.0];
      assert data[..q.0 + 1][1..] == data[1..][..q.0];
      (q.0 + 1, q.1)
  }

  /** The example count of the records before `j + 1` is that before `j`
      plus record `j`'s own. */
  lemma PrefixStep(data: seq<Record>, j: nat)
    requires j < |data|
    ensures TotalExamples(data[..j + 1]) == TotalExamples(data[..j]) + |ExamplesOf(data[j])|
  {
    assert data[..j + 1] == data[..j] + [data[j]];
    TotalConcat(data[..j], [data[j]]);
    assert [data[j]][1..] == [];
  }

  lemma {:induction false} PrefixMono(data: seq<Record>, j: nat, k: nat)
    requires j < k <= |data|
    ensures TotalExamples(data[..j + 1]) <= TotalExamples(data[..k])
    decreases k
  {
    if j + 1 < k {
      PrefixMono(data, j, k - 1);
      PrefixStep(data, k - 1);
    }
  }

  /** No position of the flattened lists belongs to two different examples:
      together with `OwnerOf`, every position has exactly one owner. */
  lemma OwnerUnique(data: seq<Record>, j: nat, e: nat, k: nat, f: nat)
    requires j < |data| && e < |ExamplesOf(data[j])|
    requires k < |data| && f < |ExamplesOf(data[k])|
    requires TotalExamples(data[..j]) + e == TotalExamples(data[..k]) + f
    ensures j == k && e == f
  {
    if j < k {
      PrefixStep(data, j);
      PrefixMono(data, j, k);
    } else if k < j {
      PrefixStep(data, k);
      PrefixMono(data, k, j);
    }
  }

  /** A record whose examples are missing or empty adds no corpus entry. */
  lemma DeadRecord(a: seq<Record>, r: Record, b: seq<Record>)
    requires ExamplesOf(r) == []
    ensures FlatExamples(a + [r] + b) == FlatExamples(a + b)
    ensures FlatIntents(a + [r] + b) == FlatIntents(a + b)
  {
    FlattenConcat(a + [r], b);
    FlattenSnoc(a, r);
    assert RecordExamples(r) == [] && RecordLabels(r) == [];
    assert FlatExamples(a) + [] == FlatExamples(a) && FlatIntents(a) + [] == FlatIntents(a);
    FlattenConcat(a, b);
  }

  lemma {:induction false} StripAllSnoc(xs: seq<string>, x: string)
    ensures StripAll(xs + [x]) == StripAll(xs) + [Strip(x)]
  {
    if xs != [] {
      assert (xs + [x])[1..] == xs[1..] + [x];
      StripAllSnoc(xs[1..], x);
    }
  }

  lemma StripAllStep(xs: seq<string>, e: nat)
    requires e < |xs|
    ensures StripAll(xs[..e + 1]) == StripAll(xs[..e]) + [Strip(xs[e])]
  {
    assert xs[..e + 1] == xs[..e] + [xs[e]];
    StripAllSnoc(xs[..e], xs[e]);
  }

  lemma {:induction false} RepeatSnoc(x: string, n: nat)
    ensures Repeat(x, n + 1) == Repeat(x, n) + [x]
  {
    if n > 0 { RepeatSnoc(x, n - 1); }
  }

  lemma FlattenSnoc(data: seq<Record>, r: Record)
    ensures FlatExamples(data + [r]) == FlatExamples(data) + RecordExamples(r)
    ensures FlatIntents(data + [r]) == FlatIntents(data) + RecordLabels(r)
  {
    FlattenConcat(data, [r]);
    assert FlatExamples([r]) == RecordExamples(r) + FlatExamples([]);
    assert FlatIntents([r]) == RecordLabels(r) + FlatIntents([]);
  }

  lemma FlattenStep(data: seq<Record>, j: nat)
    requires j < |data|
    ensures FlatExamples(data[..j + 1]) == FlatExamples(data[..j]) + RecordExamples(data[j])
    ensures FlatIntents(data[..j + 1]) == FlatIntents(data[..j]) + RecordLabels(data[j])
  {
    assert data[..j + 1] == data[..j] + [data[j]];
    FlattenSnoc(data[..j], data[j]);
  }

  /** `_prepare_examples_intents`: the nested loop appending to both lists. */
  method PrepareExamplesIntents(data: seq<Record>) returns (examples: seq<string>, intentMap: seq<string>)
    ensures examples == FlatExamples(data)
    ensures intentMap == FlatIntents(data)
  {
    examples, intentMap := [], [];
    for j := 0 to |data|
      invariant examples == FlatExamples(data[..j])
      invariant intentMap == FlatIntents(data[..j])
    {
      var item := data[j];
      var intent := IntentLabel(item);
      var exs := ExamplesOf(item);
      ghost var examples0, intentMap0 := examples, intentMap;
      for e := 0 to |exs|
        invariant examples == examples0 + StripAll(exs[..e])
        invariant intentMap == intentMap0 + Repeat(intent, e)
      {
        StripAllStep(exs, e);
        RepeatSnoc(intent, e);
        examples := examples + [Strip(exs[e])];
        intentMap := intentMap + [intent];
      }
      assert exs[..|exs|] == exs;
      FlattenStep(data, j);
    }
    assert data[..|data|] == data;
  }
}
