/**
 Embedding texts in batches over HTTP.  In one response format the service may answer a batch in any order, each vector
 marked with the index of its text; in the other it lists the vectors.  The service is a parameter.
 */
module Embedding {
  import opened Text

  type Vec = seq<real>

  datatype Item = Item(index: int, embedding: Vec)

  datatype EmbedError = ServiceFailed | EmptyData | WrongCount(got: nat, want: nat) | WrongDim(at: nat)

  datatype Format = OpenAIData | EmbeddingsArray

  datatype Answer = Indexed(data: seq<Item>) | Listed(embeddings: seq<Vec>)

  /** The service, and the format in which it is expected to answer. */
  datatype Service = Service(format: Format, reply: seq<string> -> Result<Answer, EmbedError>)

  /** The vectors of texts. */
  function VecsOf(texts: seq<string>, vec: string -> Vec): (r: seq<Vec>)
    ensures |r| == |texts| && forall i :: 0 <= i < |r| ==> r[i] == vec(texts[i])
  {
    if texts == [] then [] else VecsOf(texts[..|texts| - 1], vec) + [vec(texts[|texts| - 1])]
  }

  function Embeddings(items: seq<Item>): (r: seq<Vec>)
    ensures |r| == |items| && forall i :: 0 <= i < |r| ==> r[i] == items[i].embedding
  {
    if items == [] then [] else Embeddings(items[..|items| - 1]) + [items[|items| - 1].embedding]
  }

  // ---------------------------------------------------------------- sorting by index

  function Place(x: Item, s: seq<Item>): (r: seq<Item>)
    ensures |r| == |s| + 1
  {
    if s == [] || x.index < s[0].index then [x] + s else [s[0]] + Place(x, s[1..])
  }

  function SortByIndex(s: seq<Item>): (r: seq<Item>)
    ensures |r| == |s|
  {
    if s == [] then [] else Place(s[0], SortByIndex(s[1..]))
  }

  ghost predicate Increasing(s: seq<Item>) {
    forall i, j :: 0 <= i < j < |s| ==> s[i].index < s[j].index
  }

  lemma {:induction false} PlaceIncreasing(x: Item, s: seq<Item>)
    requires Increasing(s) && forall y :: y in s ==> y.index != x.index
    ensures Increasing(Place(x, s)) && forall y :: y in Place(x, s) <==> y == x || y in s
  {
    if s != [] && s[0].index < x.index {
      PlaceIncreasing(x, s[1..]);
      assert s == [s[0]] + s[1..];
      var r := Place(x, s[1..]);
      forall j | 0 <= j < |r| ensures s[0].index < r[j].index {
        assert r[j] in r;
      }
    }
  }

  ghost predicate DistinctIndexes(s: seq<Item>) {
    forall i, j :: 0 <= i < j < |s| ==> s[i].index != s[j].index
  }

  lemma {:induction false} SortIncreases(s: seq<Item>)
    requires DistinctIndexes(s)
    ensures Increasing(SortByIndex(s)) && forall y :: y in SortByIndex(s) <==> y in s
  {
    if s != [] {
      SortIncreases(s[1..]);
      assert s == [s[0]] + s[1..];
      PlaceIncreasing(s[0], SortByIndex(s[1..]));
    }
  }

  lemma {:induction false} AtLeast(s: seq<Item>, i: nat)
    requires Increasing(s) && i < |s| && 0 <= s[0].index
    ensures i <= s[i].index
  {
    if i > 0 {
      AtLeast(s, i - 1);
    }
  }

  lemma {:induction false} AtMost(s: seq<Item>, n: nat, i: nat)
    requires Increasing(s) && i < |s| && s[|s| - 1].index < n
    ensures s[i].index <= n - |s| + i
    decreases |s| - i
  {
    if i < |s| - 1 {
      AtMost(s, n, i + 1);
    }
  }

  // ---------------------------------------------------------------- one batch

  /** A full answer to a batch, in some order. */
  ghost predicate Answers(data: seq<Item>, batch: seq<string>, vec: string -> Vec) {
    && |data| == |batch|
    && DistinctIndexes(data)
    && forall k :: 0 <= k < |data| ==> 0 <= data[k].index < |batch| && data[k].embedding == vec(batch[data[k].index])
  }

  /** Sorting brings the vectors of an answer, in whatever order it came, into the order of the texts. */
  lemma SortedAnswer(data: seq<Item>, batch: seq<string>, vec: string -> Vec)
    requires Answers(data, batch, vec)
    ensures Embeddings(SortByIndex(data)) == VecsOf(batch, vec)
  {
    var s := SortByIndex(data);
    SortIncreases(data);
    forall i | 0 <= i < |s| ensures s[i] in data {
      assert s[i] in s;
    }
    forall i | 0 <= i < |s| ensures s[i].embedding == vec(batch[i]) {
      AtLeast(s, i);
      AtMost(s, |batch|, i);
    }
  }

  method ParseOpenAIData(data: seq<Item>) returns (r: Result<seq<Vec>, EmbedError>)
    ensures data == [] ==> r == Err(EmptyData)
    ensures data != [] ==> r == Ok(Embeddings(SortByIndex(data)))
  {
    if |data| == 0 {
      return Err(EmptyData);
    }
    var sorted := SortByIndex(data);
    var out: seq<Vec> := [];
    for i := 0 to |sorted|
      invariant |out| == i && forall k :: 0 <= k < i ==> out[k] == sorted[k].embedding
    {
      out := out + [sorted[i].embedding];
    }
    assert out == Embeddings(sorted);
    r := Ok(out);
  }

  method ParseEmbeddingsArray(embeddings: seq<Vec>) returns (r: Result<seq<Vec>, EmbedError>)
    ensures r == if embeddings == [] then Err(EmptyData) else Ok(embeddings)
  {
    if |embeddings| == 0 {
      return Err(EmptyData);
    }
    var out: seq<Vec> := [];
    for i := 0 to |embeddings|
      invariant out == embeddings[..i]
    {
      out := out + [embeddings[i]];
    }
    assert embeddings[..|embeddings|] == embeddings;
    r := Ok(out);
  }

  // ---------------------------------------------------------------- all batches

  /** Whenever the service answers, it answers fully and in the expected format. */
  ghost predicate Honest(service: Service, vec: string -> Vec) {
    forall batch :: service.reply(batch).Ok? ==> Fulfils(service.format, service.reply(batch).value, batch, vec)
  }

  ghost predicate Fulfils(format: Format, answer: Answer, batch: seq<string>, vec: string -> Vec) {
    match answer
    case Indexed(data) => format == OpenAIData && Answers(data, batch, vec)
    case Listed(embeddings) => format == EmbeddingsArray && embeddings == VecsOf(batch, vec)
  }

  /** Every batch from `start` on is answered. */
  predicate Answered(texts: seq<string>, size: nat, service: Service, start: nat)
    requires size > 0 && start <= |texts|
    decreases |texts| - start
  {
    start == |texts| || (
      var batch := Batch(texts, size, start);
      service.reply(batch).Ok? && Answered(texts, size, service, start + |batch|))
  }

  /** An answer in the other format lacks the expected field, and counts as an empty one. */
  method EmbedBatch(batch: seq<string>, service: Service) returns (r: Result<seq<Vec>, EmbedError>)
    requires batch != []
    ensures service.reply(batch).Err? ==> r == Err(service.reply(batch).error)
    ensures service.reply(batch).Ok? ==>
      match (service.format, service.reply(batch).value)
      case (OpenAIData, Indexed(data)) => r == if data == [] then Err(EmptyData) else Ok(Embeddings(SortByIndex(data)))
      case (EmbeddingsArray, Listed(embeddings)) => r == if embeddings == [] then Err(EmptyData) else Ok(embeddings)
      case _ => r == Err(EmptyData)
    ensures forall vec: string -> Vec :: Honest(service, vec) && service.reply(batch).Ok? ==> r == Ok(VecsOf(batch, vec))
  {
    hide Answers, SortByIndex, Embeddings;
    match service.reply(batch) {
      case Err(e) =>
        return Err(e);
      case Ok(answer) =>
        match service.format {
          case OpenAIData =>
            r := ParseOpenAIData(if answer.Indexed? then answer.data else []);
          case EmbeddingsArray =>
            r := ParseEmbeddingsArray(if answer.Listed? then answer.embeddings else []);
        }
        forall vec: string -> Vec | Honest(service, vec) ensures r == Ok(VecsOf(batch, vec)) {
          FulfilledInOrder(service.format, answer, batch, vec);
        }
    }
  }

  lemma FulfilledInOrder(format: Format, answer: Answer, batch: seq<string>, vec: string -> Vec)
    requires batch != [] && Fulfils(format, answer, batch, vec)
    ensures format == OpenAIData ==>
      answer.Indexed? && answer.data != [] && Embeddings(SortByIndex(answer.data)) == VecsOf(batch, vec)
    ensures format == EmbeddingsArray ==> answer.Listed? && answer.embeddings != [] && answer.embeddings == VecsOf(batch, vec)
  {
    hide SortByIndex, Embeddings;
    if answer.Indexed? {
      SortedAnswer(answer.data, batch, vec);
    }
  }

  /** The vectors come back in the order of the texts, for all batch sizes and all orders of the answers. */
  method Embed(texts: seq<string>, size: nat, expectedDim: int, service: Service, ghost vec: string -> Vec)
    returns (r: Result<seq<Vec>, EmbedError>)
    requires size > 0
    ensures r.Ok? && Honest(service, vec) ==> r.value == VecsOf(texts, vec)
    ensures Honest(service, vec) ==>
      (r.Ok? <==> Answered(texts, size, service, 0) && forall i :: 0 <= i < |texts| ==> expectedDim <= 0 || |vec(texts[i])| == expectedDim)
  {
    hide Answered, Honest, VecsOf;
    if |texts| == 0 {
      AnsweredStep(texts, size, service, 0);
      return Ok([]);
    }
    var out: seq<Vec> := [];
    var start := 0;
    while start < |texts|
      invariant start <= |texts|
      invariant Honest(service, vec) ==> out == VecsOf(texts[..start], vec)
      invariant Answered(texts, size, service, 0) <==> Answered(texts, size, service, start)
    {
      var batch := Batch(texts, size, start);
      AnsweredStep(texts, size, service, start);
      var answer := EmbedBatch(batch, service);
      assert Honest(service, vec) && service.reply(batch).Ok? ==> answer == Ok(VecsOf(batch, vec));
      match answer {
        case Err(e) =>
          return Err(e);
        case Ok(vecs) =>
          if |vecs| != |batch| {
            return Err(WrongCount(|vecs|, |batch|));
          }
          BatchExtends(texts, size, start);
          VecsConcat(texts[..start], batch, vec);
          out := out + vecs;
          start := start + |batch|;
      }
    }
    AnsweredStep(texts, size, service, start);
    assert texts[..start] == texts;
    if expectedDim > 0 {
      for i := 0 to |out|
        invariant forall k :: 0 <= k < i ==> |out[k]| == expectedDim
      {
        if |out[i]| != expectedDim {
          return Err(WrongDim(i));
        }
      }
    }
    r := Ok(out);
  }

  lemma AnsweredStep(texts: seq<string>, size: nat, service: Service, start: nat)
    requires size > 0 && start <= |texts|
    ensures start == |texts| ==> Answered(texts, size, service, start)
    ensures start < |texts| ==> var batch := Batch(texts, size, start);
      Answered(texts, size, service, start) <==> service.reply(batch).Ok? && Answered(texts, size, service, start + |batch|)
  {
  }

  lemma BatchExtends<T>(s: seq<T>, size: nat, start: nat)
    requires start <= |s|
    ensures var b := Batch(s, size, start); s[..start] + b == s[..start + |b|]
  {
  }

  lemma {:induction false} VecsConcat(a: seq<string>, b: seq<string>, vec: string -> Vec)
    ensures VecsOf(a + b, vec) == VecsOf(a, vec) + VecsOf(b, vec)
  {
  }
}
