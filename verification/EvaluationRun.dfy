/** The budget of an embedding evaluation (evals/run_embedding_eval.py): preflight, batching, metering. */
module EvaluationRun {
  import opened Prelude

  datatype Text = Text(content: string)
  /** `finite`: all components are finite numbers and not all are zero; `fits`: it has the expected dimension. */
  datatype Vector = Vector(tag: int, finite: bool, fits: bool)

  type Chunk = seq<Text>

  datatype Caps = Caps(maxRequests: int, maxCost: real, pricePerMillion: real)

  /** The embedder's answer to the n-th request. It may differ from request to request and may have the wrong length. */
  type Embedder = (nat, Chunk) -> seq<Vector>

  datatype Stop = PreflightCap | RequestCap | CostCap

  // ---- batches -----------------------------------------------------------------------------------

  function Chunks(texts: seq<Text>, batch: nat): seq<Chunk>
    requires batch >= 1
  {
    if texts == [] then []
    else if |texts| <= batch then [texts]
    else [texts[..batch]] + Chunks(texts[batch..], batch)
  }

  /** Each segment is cut on its own, so no batch mixes two of them. */
  function AllChunks(segments: seq<seq<Text>>, batch: nat): seq<Chunk>
    requires batch >= 1
  {
    if segments == [] then [] else Chunks(segments[0], batch) + AllChunks(segments[1..], batch)
  }

  function Chars(texts: seq<Text>): nat {
    if texts == [] then 0 else |texts[0].content| + Chars(texts[1..])
  }

  /** The preflight's count: each segment's length over the batch size, rounded up as minus the floor of minus it. */
  function PerRepeat(segments: seq<seq<Text>>, batch: nat): int
    requires batch >= 1
  {
    if segments == [] then 0 else -((-|segments[0]|) / batch) + PerRepeat(segments[1..], batch)
  }

  lemma {:induction false} CharsAppend(a: seq<Text>, b: seq<Text>)
    ensures Chars(a + b) == Chars(a) + Chars(b)
  {
    if a == [] {
      assert a + b == b;
    } else {
      assert (a + b)[1..] == a[1..] + b;
      CharsAppend(a[1..], b);
    }
  }

  lemma NoMultipleBetween(d: int, k: int)
    requires d >= 1 && -d < d * k < d
    ensures k == 0
  {
    assert k >= 1 ==> d * (k - 1) >= 0;
    assert k <= -1 ==> d * (-k - 1) >= 0;
    assert d * k == d * (k - 1) + d;
    assert d * k == -(d * (-k - 1)) - d;
  }

  lemma RoundedUp(n: int, d: int, c: int)
    requires d >= 1 && d * c - d < n <= d * c
    ensures -((-n) / d) == c
  {
    var q, r := (-n) / d, (-n) % d;
    assert -n == d * q + r;
    assert d * (c + q) == d * c + d * q;
    NoMultipleBetween(d, c + q);
  }

  /** No more batches than needed. */
  lemma {:induction false} ChunksAreFew(texts: seq<Text>, batch: nat)
    requires batch >= 1
    ensures batch * |Chunks(texts, batch)| - batch < |texts| <= batch * |Chunks(texts, batch)|
  {
    if |texts| > batch {
      ChunksAreFew(texts[batch..], batch);
      var k := |Chunks(texts[batch..], batch)|;
      assert batch * (1 + k) == batch + batch * k;
    } else {
      assert batch * 1 == batch && batch * 0 == 0;
    }
  }

  /** The batches of one segment hold its texts in order, none empty or too long. */
  lemma {:induction false} ChunksCover(texts: seq<Text>, batch: nat)
    requires batch >= 1
    ensures Flatten(Chunks(texts, batch)) == texts
    ensures forall c | c in Chunks(texts, batch) :: 1 <= |c| <= batch
  {
    if |texts| > batch {
      var first, rest := texts[..batch], Chunks(texts[batch..], batch);
      ChunksCover(texts[batch..], batch);
      assert ([first] + rest)[1..] == rest;
      assert texts == first + texts[batch..];
    } else if texts != [] {
      assert [texts][1..] == [];
    }
  }

  lemma {:induction false} AllChunksCover(segments: seq<seq<Text>>, batch: nat)
    requires batch >= 1
    ensures Flatten(AllChunks(segments, batch)) == Flatten(segments)
    ensures |AllChunks(segments, batch)| == PerRepeat(segments, batch)
    ensures forall c | c in AllChunks(segments, batch) :: 1 <= |c| <= batch
  {
    if segments != [] {
      ChunksCover(segments[0], batch);
      ChunksAreFew(segments[0], batch);
      RoundedUp(|segments[0]|, batch, |Chunks(segments[0], batch)|);
      AllChunksCover(segments[1..], batch);
      FlattenAppend(Chunks(segments[0], batch), AllChunks(segments[1..], batch));
    }
  }

  // ---- cost --------------------------------------------------------------------------------------

  /** A quarter of the characters, rounded up, at the price of a million. */
  function Cost(chars: nat, pricePerMillion: real): real {
    ((chars + 3) / 4) as real * pricePerMillion / 1000000.0
  }

  /** Four characters make a token, a token begun counts whole, and the price is that of a million tokens. */
  lemma CostIsByToken(chars: nat, price: real) returns (tokens: nat)
    ensures 4 * tokens >= chars > 4 * tokens - 4
    ensures Cost(chars, price) * 1000000.0 == tokens as real * price
    ensures Chars([]) == 0 && forall text :: Chars([text]) == |text.content|
  {
    tokens := (chars + 3) / 4;
    forall text
      ensures Chars([text]) == |text.content|
    {
      assert [text][1..] == [];
    }
  }

  lemma CostGrows(a: nat, b: nat, price: real)
    requires a <= b && price >= 0.0
    ensures Cost(a, price) <= Cost(b, price)
  {
    var s, t := ((a + 3) / 4) as real, ((b + 3) / 4) as real;
    assert s <= t;
    Scaled(s, t, price);
  }

  lemma Scaled(s: real, t: real, price: real)
    requires s <= t && price >= 0.0
    ensures s * price / 1000000.0 <= t * price / 1000000.0
  {
    assert (t - s) * price >= 0.0;
  }

  // ---- one repeat --------------------------------------------------------------------------------

  /** The characters of the first n chunks. */
  function CharsTo(chunks: seq<Chunk>, n: nat): nat
    requires n <= |chunks|
  {
    if n == 0 then 0 else CharsTo(chunks, n - 1) + Chars(chunks[n - 1])
  }

  /** The texts of the first n chunks. */
  function TextsTo(chunks: seq<Chunk>, n: nat): seq<Text>
    requires n <= |chunks|
  {
    if n == 0 then [] else TextsTo(chunks, n - 1) + chunks[n - 1]
  }

  /** The answers to the first n chunks, the first of which is request number `first`. */
  function Gathered(embed: Embedder, first: nat, chunks: seq<Chunk>, n: nat): seq<Vector>
    requires n <= |chunks|
  {
    if n == 0 then [] else Gathered(embed, first, chunks, n - 1) + embed(first + n - 1, chunks[n - 1])
  }

  /** Every one of the first n answers has as many vectors as its chunk has texts. */
  predicate CountsMatch(embed: Embedder, first: nat, chunks: seq<Chunk>, n: nat)
    requires n <= |chunks|
  {
    n == 0 || (CountsMatch(embed, first, chunks, n - 1) && |embed(first + n - 1, chunks[n - 1])| == |chunks[n - 1]|)
  }

  /** The chunks still fit in the caps. */
  predicate Affords(requests: nat, chars: nat, chunks: seq<Chunk>, caps: Caps) {
    chunks == [] || (requests + |chunks| <= caps.maxRequests
                     && Cost(chars + CharsTo(chunks, |chunks|), caps.pricePerMillion) <= caps.maxCost)
  }

  lemma {:induction false} TextsToAll(chunks: seq<Chunk>, n: nat)
    requires n <= |chunks|
    ensures TextsTo(chunks, n) == Flatten(chunks[..n]) && CharsTo(chunks, n) == Chars(TextsTo(chunks, n))
    decreases n
  {
    if n > 0 {
      TextsToAll(chunks, n - 1);
      assert chunks[..n] == chunks[..n - 1] + [chunks[n - 1]];
      FlattenAppend(chunks[..n - 1], [chunks[n - 1]]);
      assert Flatten([chunks[n - 1]]) == chunks[n - 1] + Flatten([chunks[n - 1]][1..]);
      CharsAppend(TextsTo(chunks, n - 1), chunks[n - 1]);
    }
  }

  lemma {:induction false} CharsToGrows(chunks: seq<Chunk>, k: nat, n: nat)
    requires k <= n <= |chunks|
    ensures CharsTo(chunks, k) <= CharsTo(chunks, n)
    decreases n
  {
    if k < n {
      CharsToGrows(chunks, k, n - 1);
    }
  }

  /** A cost over the cap early on is over it at the end. */
  lemma OverspentStays(chunks: seq<Chunk>, k: nat, requests: nat, chars: nat, caps: Caps)
    requires k <= |chunks| && chunks != [] && caps.pricePerMillion >= 0.0
    requires Cost(chars + CharsTo(chunks, k), caps.pricePerMillion) > caps.maxCost
    ensures !Affords(requests, chars, chunks, caps)
  {
    CharsToGrows(chunks, k, |chunks|);
    CostGrows(chars + CharsTo(chunks, k), chars + CharsTo(chunks, |chunks|), caps.pricePerMillion);
  }

  class Meter {
    var requests: nat
    var chars: nat
    var countOk: bool

    constructor ()
      ensures requests == 0 && chars == 0 && countOk
    {
      requests, chars, countOk := 0, 0, true;
    }

    /** One request, counted. */
    method Count(embed: Embedder, chunk: Chunk) returns (answer: seq<Vector>)
      modifies this
      ensures answer == embed(old(requests), chunk)
      ensures requests == old(requests) + 1 && chars == old(chars) + Chars(chunk)
      ensures countOk <==> old(countOk) && |answer| == |chunk|
    {
      answer := embed(requests, chunk);
      requests := requests + 1;
      chars := chars + Chars(chunk);
      countOk := countOk && |answer| == |chunk|;
    }
  }

  /** What one more chunk adds to the account. */
  lemma NextChunk(embed: Embedder, first: nat, chunks: seq<Chunk>, k: nat)
    requires k < |chunks|
    ensures CharsTo(chunks, k + 1) == CharsTo(chunks, k) + Chars(chunks[k])
    ensures Gathered(embed, first, chunks, k + 1) == Gathered(embed, first, chunks, k) + embed(first + k, chunks[k])
    ensures CountsMatch(embed, first, chunks, k + 1)
       <==> CountsMatch(embed, first, chunks, k) && |embed(first + k, chunks[k])| == |chunks[k]|
  {
  }

  /** Embed chunk after chunk, stopping before a request or after a cost beyond its cap. It stops exactly when the
      chunks do not all fit. */
  method EmbedAll(embed: Embedder, segments: seq<seq<Text>>, batch: nat, meter: Meter, caps: Caps)
    returns (stop: Option<Stop>, vectors: seq<Vector>)
    requires batch >= 1 && caps.pricePerMillion >= 0.0
    modifies meter
    ensures stop.None? <==> Affords(old(meter.requests), old(meter.chars), AllChunks(segments, batch), caps)
    ensures stop.None? ==>
      var chunks := AllChunks(segments, batch);
      && vectors == Gathered(embed, old(meter.requests), chunks, |chunks|)
      && meter.requests == old(meter.requests) + |chunks|
      && meter.chars == old(meter.chars) + CharsTo(chunks, |chunks|)
      && (meter.countOk <==> old(meter.countOk) && CountsMatch(embed, old(meter.requests), chunks, |chunks|))
    ensures meter.requests <= Max(old(meter.requests), caps.maxRequests)
  {
    vectors := [];
    var chunks := AllChunks(segments, batch);
    for k := 0 to |chunks|
      invariant meter.requests == old(meter.requests) + k
      invariant meter.chars == old(meter.chars) + CharsTo(chunks, k)
      invariant meter.countOk <==> old(meter.countOk) && CountsMatch(embed, old(meter.requests), chunks, k)
      invariant vectors == Gathered(embed, old(meter.requests), chunks, k)
      invariant k > 0 ==> meter.requests <= caps.maxRequests && Cost(meter.chars, caps.pricePerMillion) <= caps.maxCost
    {
      if meter.requests >= caps.maxRequests {
        return Some(RequestCap), vectors;
      }
      NextChunk(embed, old(meter.requests), chunks, k);
      var answer := meter.Count(embed, chunks[k]);
      if Cost(meter.chars, caps.pricePerMillion) > caps.maxCost {
        OverspentStays(chunks, k + 1, old(meter.requests), old(meter.chars), caps);
        return Some(CostCap), vectors;
      }
      vectors := vectors + answer;
    }
    stop := None;
  }

  // ---- a whole run -------------------------------------------------------------------------------

  predicate Preflight(segments: seq<seq<Text>>, batch: nat, repeats: nat, caps: Caps)
    requires batch >= 1
  {
    && PerRepeat(segments, batch) * repeats <= caps.maxRequests
    && Cost(Chars(Flatten(segments)) * repeats, caps.pricePerMillion) <= caps.maxCost
  }

  /** n, r times over. */
  function Times(n: nat, r: nat): nat {
    if r == 0 then 0 else Times(n, r - 1) + n
  }

  lemma {:induction false} TimesGrows(n: nat, r: nat, m: nat)
    requires r <= m
    ensures Times(n, r) <= Times(n, m) == n * m
    decreases m
  {
    if r < m {
      TimesGrows(n, r, m - 1);
      assert n * m == n * (m - 1) + n;
    } else if m > 0 {
      TimesGrows(n, r - 1, m - 1);
      assert n * m == n * (m - 1) + n;
    } else {
      assert n * 0 == 0;
    }
  }

  /** After r whole repeats there is room for another. */
  predicate FitsRepeat(chunks: seq<Chunk>, r: nat, caps: Caps) {
    Affords(Times(|chunks|, r), Times(CharsTo(chunks, |chunks|), r), chunks, caps)
  }

  /** All repeats together fit in the caps. */
  predicate Budgeted(chunks: seq<Chunk>, repeats: nat, caps: Caps) {
    && Times(|chunks|, repeats) <= caps.maxRequests
    && Cost(Times(CharsTo(chunks, |chunks|), repeats), caps.pricePerMillion) <= caps.maxCost
  }

  lemma PreflightCounts(segments: seq<seq<Text>>, batch: nat, repeats: nat, caps: Caps)
    requires batch >= 1
    ensures Preflight(segments, batch, repeats, caps) <==> Budgeted(AllChunks(segments, batch), repeats, caps)
  {
    var chunks := AllChunks(segments, batch);
    AllChunksCover(segments, batch);
    TextsToAll(chunks, |chunks|);
    assert chunks[..|chunks|] == chunks;
    TimesGrows(|chunks|, repeats, repeats);
    TimesGrows(CharsTo(chunks, |chunks|), repeats, repeats);
  }

  lemma {:induction false} CapsHold(chunks: seq<Chunk>, r: nat, repeats: nat, caps: Caps)
    requires r <= repeats && caps.pricePerMillion >= 0.0 && Budgeted(chunks, repeats, caps)
    ensures Budgeted(chunks, r, caps)
    ensures r < repeats ==> FitsRepeat(chunks, r, caps)
    decreases repeats - r
  {
    TimesGrows(|chunks|, r, repeats);
    TimesGrows(CharsTo(chunks, |chunks|), r, repeats);
    CostGrows(Times(CharsTo(chunks, |chunks|), r), Times(CharsTo(chunks, |chunks|), repeats), caps.pricePerMillion);
    if r < repeats {
      CapsHold(chunks, r + 1, repeats, caps);
    }
  }

  /** Passing the preflight means every repeat fits, whatever the embedder answers; failing it, with anything to embed,
      means that the last repeat would not. */
  lemma PreflightIsExact(segments: seq<seq<Text>>, batch: nat, repeats: nat, caps: Caps)
    requires batch >= 1 && repeats >= 1 && caps.pricePerMillion >= 0.0 && AllChunks(segments, batch) != []
    ensures Preflight(segments, batch, repeats, caps) <==>
      forall r | 0 <= r < repeats :: FitsRepeat(AllChunks(segments, batch), r, caps)
  {
    PreflightCounts(segments, batch, repeats, caps);
    if Preflight(segments, batch, repeats, caps) {
      forall r | 0 <= r < repeats
        ensures FitsRepeat(AllChunks(segments, batch), r, caps)
      {
        CapsHold(AllChunks(segments, batch), r, repeats, caps);
      }
    } else {
      assert !FitsRepeat(AllChunks(segments, batch), repeats - 1, caps);
    }
  }

  datatype Outcome = Stopped(stop: Stop) | Ranked(repeats: seq<seq<Vector>>) | Unranked

  /** What the r-th repeat embeds. */
  function Repeat(embed: Embedder, chunks: seq<Chunk>, r: nat): seq<Vector> {
    Gathered(embed, Times(|chunks|, r), chunks, |chunks|)
  }

  function FirstRepeats(embed: Embedder, chunks: seq<Chunk>, n: nat): (all: seq<seq<Vector>>)
    ensures |all| == n && forall r | 0 <= r < n :: all[r] == Repeat(embed, chunks, r)
  {
    if n == 0 then [] else FirstRepeats(embed, chunks, n - 1) + [Repeat(embed, chunks, n - 1)]
  }

  predicate RepeatCounts(embed: Embedder, chunks: seq<Chunk>, r: nat) {
    CountsMatch(embed, Times(|chunks|, r), chunks, |chunks|)
  }

  /** As many vectors as texts, every one finite and of the right dimension; no vectors at all count as invalid. */
  predicate Usable(vectors: seq<Vector>, texts: seq<Text>) {
    |vectors| == |texts| && Valid(vectors)
  }

  predicate Valid(vectors: seq<Vector>) {
    vectors != [] && forall i | 0 <= i < |vectors| :: vectors[i].finite && vectors[i].fits
  }

  /** The first n repeats are all usable. */
  predicate AllUsable(embed: Embedder, chunks: seq<Chunk>, n: nat, texts: seq<Text>) {
    n == 0 || (AllUsable(embed, chunks, n - 1, texts) && Usable(Repeat(embed, chunks, n - 1), texts))
  }

  predicate AllCount(embed: Embedder, chunks: seq<Chunk>, n: nat) {
    n == 0 || (AllCount(embed, chunks, n - 1) && RepeatCounts(embed, chunks, n - 1))
  }

  lemma {:induction false} UsableFrom(embed: Embedder, chunks: seq<Chunk>, k: nat, n: nat, texts: seq<Text>)
    requires k <= n
    ensures AllUsable(embed, chunks, n, texts) ==> AllUsable(embed, chunks, k, texts)
    decreases n
  {
    if k < n {
      UsableFrom(embed, chunks, k, n - 1, texts);
    }
  }

  lemma {:induction false} CountFrom(embed: Embedder, chunks: seq<Chunk>, k: nat, n: nat)
    requires k < n && AllCount(embed, chunks, n)
    ensures RepeatCounts(embed, chunks, k)
    decreases n
  {
    if k < n - 1 {
      CountFrom(embed, chunks, k, n - 1);
    }
  }

  /** Embed everything `repeats` times; rank only if every repeat is usable and every single answer had the right
      length. Only the preflight ever stops a run, and the caps then hold throughout. */
  method Run(embed: Embedder, segments: seq<seq<Text>>, batch: nat, repeats: nat, caps: Caps)
    returns (outcome: Outcome, requests: nat, chars: nat)
    requires batch >= 1 && repeats >= 1 && caps.pricePerMillion >= 0.0
    ensures outcome.Stopped? <==> !Preflight(segments, batch, repeats, caps)
    ensures outcome.Stopped? ==> outcome.stop == PreflightCap && requests == 0
    ensures !outcome.Stopped? ==> requests <= caps.maxRequests && Cost(chars, caps.pricePerMillion) <= caps.maxCost
    ensures var chunks := AllChunks(segments, batch);
            outcome.Ranked? <==>
              && Preflight(segments, batch, repeats, caps)
              && AllUsable(embed, chunks, repeats, Flatten(segments)) && AllCount(embed, chunks, repeats)
    ensures outcome.Ranked? ==> outcome.repeats == FirstRepeats(embed, AllChunks(segments, batch), repeats)
  {
    PreflightCounts(segments, batch, repeats, caps);
    if !Preflight(segments, batch, repeats, caps) {
      return Stopped(PreflightCap), 0, 0;
    }
    outcome, requests, chars := Repeated(embed, segments, batch, repeats, caps);
  }

  lemma NextRepeat(embed: Embedder, chunks: seq<Chunk>, r: nat, texts: seq<Text>)
    ensures FirstRepeats(embed, chunks, r + 1) == FirstRepeats(embed, chunks, r) + [Repeat(embed, chunks, r)]
    ensures AllUsable(embed, chunks, r + 1, texts)
       <==> AllUsable(embed, chunks, r, texts) && Usable(Repeat(embed, chunks, r), texts)
    ensures AllCount(embed, chunks, r + 1) <==> AllCount(embed, chunks, r) && RepeatCounts(embed, chunks, r)
  {
  }

  method EmbedRepeat(embed: Embedder, segments: seq<seq<Text>>, batch: nat, ghost r: nat, meter: Meter, caps: Caps)
    returns (vectors: seq<Vector>)
    requires batch >= 1 && caps.pricePerMillion >= 0.0 && FitsRepeat(AllChunks(segments, batch), r, caps)
    requires meter.requests == Times(|AllChunks(segments, batch)|, r)
    requires meter.chars == var chunks := AllChunks(segments, batch); Times(CharsTo(chunks, |chunks|), r)
    modifies meter
    ensures vectors == Repeat(embed, AllChunks(segments, batch), r)
    ensures meter.requests == Times(|AllChunks(segments, batch)|, r + 1)
    ensures meter.chars == var chunks := AllChunks(segments, batch); Times(CharsTo(chunks, |chunks|), r + 1)
    ensures meter.countOk <==> old(meter.countOk) && RepeatCounts(embed, AllChunks(segments, batch), r)
  {
    var stop;
    stop, vectors := EmbedAll(embed, segments, batch, meter, caps);
  }

  /** The repeats of a run that passed the preflight. */
  method Repeated(embed: Embedder, segments: seq<seq<Text>>, batch: nat, repeats: nat, caps: Caps)
    returns (outcome: Outcome, requests: nat, chars: nat)
    requires batch >= 1 && repeats >= 1 && caps.pricePerMillion >= 0.0
    requires Budgeted(AllChunks(segments, batch), repeats, caps)
    ensures !outcome.Stopped? && requests <= caps.maxRequests && Cost(chars, caps.pricePerMillion) <= caps.maxCost
    ensures var chunks := AllChunks(segments, batch);
            outcome.Ranked? <==>
              AllUsable(embed, chunks, repeats, Flatten(segments)) && AllCount(embed, chunks, repeats)
    ensures outcome.Ranked? ==> outcome.repeats == FirstRepeats(embed, AllChunks(segments, batch), repeats)
  {
    var texts := Flatten(segments);
    ghost var chunks := AllChunks(segments, batch);
    var meter := new Meter();
    var kept: seq<seq<Vector>>, usable := [], true;
    var r := 0;
    while r < repeats && usable
      invariant 0 <= r <= repeats
      invariant meter.requests == Times(|chunks|, r) && meter.chars == Times(CharsTo(chunks, |chunks|), r)
      invariant usable ==> kept == FirstRepeats(embed, chunks, r)
      invariant usable <==> AllUsable(embed, chunks, r, texts)
      invariant meter.countOk <==> AllCount(embed, chunks, r)
      invariant !usable ==> |kept| < repeats
      decreases repeats - r
    {
      CapsHold(chunks, r, repeats, caps);
      var vectors := EmbedRepeat(embed, segments, batch, r, meter, caps);
      NextRepeat(embed, chunks, r, texts);
      usable := |vectors| == |texts| && Valid(vectors);
      if usable {
        kept := kept + [vectors];
      }
      r := r + 1;
    }
    requests, chars := meter.requests, meter.chars;
    CapsHold(chunks, r, repeats, caps);
    UsableFrom(embed, chunks, r, repeats, texts);
    outcome := if |kept| == repeats && meter.countOk then Ranked(kept) else Unranked;
  }

  // ---- what a ranked run ranks -------------------------------------------------------------------

  /** The provider's promise about a request: an answer of the right length answers the texts in their order. */
  ghost predicate AnswersInOrder(embed: Embedder, of: Vector -> Text) {
    forall n: nat, chunk: Chunk :: Answers(embed(n, chunk), chunk, of)
  }

  predicate Answers(vectors: seq<Vector>, texts: seq<Text>, of: Vector -> Text) {
    |vectors| == |texts| ==> forall i | 0 <= i < |texts| :: of(vectors[i]) == texts[i]
  }

  lemma {:induction false} GatheredInOrder(embed: Embedder, first: nat, chunks: seq<Chunk>, n: nat, of: Vector -> Text)
    requires n <= |chunks| && AnswersInOrder(embed, of) && CountsMatch(embed, first, chunks, n)
    ensures |Gathered(embed, first, chunks, n)| == |TextsTo(chunks, n)|
    ensures Answers(Gathered(embed, first, chunks, n), TextsTo(chunks, n), of)
    decreases n
  {
    if n > 0 {
      GatheredInOrder(embed, first, chunks, n - 1, of);
      assert Answers(embed(first + n - 1, chunks[n - 1]), chunks[n - 1], of);
    }
  }

  /** Pairing texts and vectors by position is therefore right in every ranked repeat: answers that are too long in one
      batch and too short in another never shift a vector onto another text. */
  lemma RankedVectorsAnswerTheirTexts(
    embed: Embedder, segments: seq<seq<Text>>, batch: nat, repeats: nat, r: nat, of: Vector -> Text)
    requires batch >= 1 && r < repeats && AnswersInOrder(embed, of)
    requires AllCount(embed, AllChunks(segments, batch), repeats)
    ensures var vectors, texts := Repeat(embed, AllChunks(segments, batch), r), Flatten(segments);
            |vectors| == |texts| && forall i | 0 <= i < |texts| :: of(vectors[i]) == texts[i]
  {
    var chunks := AllChunks(segments, batch);
    CountFrom(embed, chunks, r, repeats);
    GatheredInOrder(embed, Times(|chunks|, r), chunks, |chunks|, of);
    AllChunksCover(segments, batch);
    TextsToAll(chunks, |chunks|);
    assert chunks[..|chunks|] == chunks;
  }

  // ---- when a run is ranked, answer by answer ----------------------------------------------------

  /** One vector for each text, all of them finite and of the right dimension. */
  predicate Good(answer: seq<Vector>, chunk: Chunk) {
    |answer| == |chunk| && forall i | 0 <= i < |answer| :: answer[i].finite && answer[i].fits
  }

  /** The answer to the k-th chunk in the r-th repeat. */
  function AnswerTo(embed: Embedder, chunks: seq<Chunk>, r: nat, k: nat): seq<Vector>
    requires k < |chunks|
  {
    embed(|chunks| * r + k, chunks[k])
  }

  /** A repeat holds the answers to its chunks, one behind the other. */
  lemma {:induction false} RepeatHoldsAnswers(embed: Embedder, chunks: seq<Chunk>, r: nat, n: nat)
    requires n <= |chunks|
    ensures Gathered(embed, |chunks| * r, chunks, n)
         == Flatten(seq(n, k requires 0 <= k < n => AnswerTo(embed, chunks, r, k)))
  {
    if n > 0 {
      RepeatHoldsAnswers(embed, chunks, r, n - 1);
      var before := seq(n - 1, k requires 0 <= k < n - 1 => AnswerTo(embed, chunks, r, k));
      var last := [AnswerTo(embed, chunks, r, n - 1)];
      assert seq(n, k requires 0 <= k < n => AnswerTo(embed, chunks, r, k)) == before + last;
      FlattenAppend(before, last);
      assert last[1..] == [];
      assert Flatten(last) == last[0];
    }
  }

  predicate AllValid(vectors: seq<Vector>) {
    forall i | 0 <= i < |vectors| :: vectors[i].finite && vectors[i].fits
  }

  lemma AllValidAppend(a: seq<Vector>, b: seq<Vector>)
    ensures AllValid(a + b) <==> AllValid(a) && AllValid(b)
  {
    assert a == (a + b)[..|a|] && b == (a + b)[|a|..];
  }

  /** With the right number of answers to each of the first n chunks, they are all valid when each is good. */
  lemma {:induction false} GoodUpTo(embed: Embedder, chunks: seq<Chunk>, r: nat, n: nat)
    requires n <= |chunks|
    ensures (forall k | 0 <= k < n :: Good(AnswerTo(embed, chunks, r, k), chunks[k]))
       <==> CountsMatch(embed, |chunks| * r, chunks, n) && AllValid(Gathered(embed, |chunks| * r, chunks, n))
    ensures CountsMatch(embed, |chunks| * r, chunks, n) ==>
      |Gathered(embed, |chunks| * r, chunks, n)| == |TextsTo(chunks, n)|
  {
    if n > 0 {
      GoodUpTo(embed, chunks, r, n - 1);
      AllValidAppend(Gathered(embed, |chunks| * r, chunks, n - 1), AnswerTo(embed, chunks, r, n - 1));
      assert Good(AnswerTo(embed, chunks, r, n - 1), chunks[n - 1]) <==>
             && |AnswerTo(embed, chunks, r, n - 1)| == |chunks[n - 1]|
             && AllValid(AnswerTo(embed, chunks, r, n - 1));
    }
  }

  /** The r-th repeat got a good answer to every chunk. */
  predicate GoodRepeat(embed: Embedder, chunks: seq<Chunk>, r: nat) {
    forall k | 0 <= k < |chunks| :: Good(AnswerTo(embed, chunks, r, k), chunks[k])
  }

  lemma RepeatIsGood(embed: Embedder, chunks: seq<Chunk>, r: nat, texts: seq<Text>)
    requires texts == TextsTo(chunks, |chunks|)
    ensures RepeatCounts(embed, chunks, r) && Usable(Repeat(embed, chunks, r), texts)
       <==> texts != [] && GoodRepeat(embed, chunks, r)
  {
    TimesGrows(|chunks|, r, r);
    GoodUpTo(embed, chunks, r, |chunks|);
  }

  lemma {:induction false} RepeatsAreGood(embed: Embedder, chunks: seq<Chunk>, n: nat, texts: seq<Text>)
    requires texts == TextsTo(chunks, |chunks|)
    ensures AllUsable(embed, chunks, n, texts) && AllCount(embed, chunks, n)
       <==> (n == 0 || texts != []) && forall r | 0 <= r < n :: GoodRepeat(embed, chunks, r)
  {
    if n > 0 {
      RepeatsAreGood(embed, chunks, n - 1, texts);
      RepeatIsGood(embed, chunks, n - 1, texts);
    }
  }

  /** What makes a run within budget ranked is that there is something to embed and every single answer is good; the
      repeats then hold those answers in their order. */
  lemma RankedByItsAnswers(embed: Embedder, segments: seq<seq<Text>>, batch: nat, repeats: nat)
    requires batch >= 1 && repeats >= 1
    ensures var chunks := AllChunks(segments, batch);
            AllUsable(embed, chunks, repeats, Flatten(segments)) && AllCount(embed, chunks, repeats)
            <==> Flatten(segments) != [] && forall r | 0 <= r < repeats :: GoodRepeat(embed, chunks, r)
    ensures var chunks := AllChunks(segments, batch);
            forall r | 0 <= r < repeats ::
              FirstRepeats(embed, chunks, repeats)[r]
              == Flatten(seq(|chunks|, k requires 0 <= k < |chunks| => AnswerTo(embed, chunks, r, k)))
  {
    var chunks := AllChunks(segments, batch);
    AllChunksCover(segments, batch);
    TextsToAll(chunks, |chunks|);
    assert chunks[..|chunks|] == chunks;
    RepeatsAreGood(embed, chunks, repeats, Flatten(segments));
    forall r | 0 <= r < repeats
      ensures FirstRepeats(embed, chunks, repeats)[r]
           == Flatten(seq(|chunks|, k requires 0 <= k < |chunks| => AnswerTo(embed, chunks, r, k)))
    {
      TimesGrows(|chunks|, r, r);
      RepeatHoldsAnswers(embed, chunks, r, |chunks|);
    }
  }
}
