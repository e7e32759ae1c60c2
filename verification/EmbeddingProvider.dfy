// src/models/openai-compatible/embedding-provider.ts: the strict reading of one
// response, the batches of 64, and the dimension that stays the same.

module EmbeddingProvider {
  import opened Support
  import opened Text
  import opened Json
  import opened Models
  import opened Sets

  type Vector = seq<real>

  const MAX_BATCH: nat := 64

  // ------------------------------------------------------- what a response says

  /** The item carries this vector: its `embedding` is a non-empty array of exactly these numbers. */
  ghost predicate Carries(item: Json, v: Vector) {
    && item.JObject? && "embedding" in item.fields && item.fields["embedding"].JArray?
    && var raw := item.fields["embedding"].items;
       |raw| == |v| > 0 && forall i :: 0 <= i < |raw| ==> raw[i] == JNumber(v[i])
  }

  /** The item names this number as its `index`. */
  ghost predicate Names(item: Json, n: real) {
    item.JObject? && "index" in item.fields && item.fields["index"] == JNumber(n)
  }

  /** Item `p` is for input `k`: it names `k`, or it names no number and stands at `k`. */
  ghost predicate IsFor(data: seq<Json>, p: nat, k: nat)
    requires p < |data|
  {
    Names(data[p], k as real) || (p == k && forall n :: !Names(data[p], n))
  }

  /** One vector per input: every item carries one and is for an input, and no two are for the same. */
  ghost predicate WellFormed(data: seq<Json>, count: nat) {
    && |data| == count
    && (forall p: nat :: p < |data| ==> IsGood(data, p, count))
    && (forall p: nat, q: nat :: p < q < |data| ==> !Clash(data, p, q))
  }

  ghost predicate IsGood(data: seq<Json>, p: nat, count: nat)
    requires p < |data|
  {
    (exists v :: Carries(data[p], v)) && exists k: nat :: k < count && IsFor(data, p, k)
  }

  ghost predicate Clash(data: seq<Json>, p: nat, q: nat)
    requires p < |data| && q < |data|
  {
    exists k: nat :: IsFor(data, p, k) && IsFor(data, q, k)
  }

  /** `vectors[k]` is the vector of the item that is for input `k`, for every `k`. */
  ghost predicate Ordered(data: seq<Json>, vectors: seq<Vector>) {
    |vectors| == |data| && forall k: nat :: k < |vectors| ==> ComesFrom(data, k, vectors[k])
  }

  ghost predicate ComesFrom(data: seq<Json>, k: nat, v: Vector) {
    exists p: nat :: p < |data| && IsFor(data, p, k) && Carries(data[p], v)
  }

  // ----------------------------------------------------------------- one response

  predicate IsNumeric(json: Json) {
    json.JArray? && json.items != [] && forall i :: 0 <= i < |json.items| ==> json.items[i].JNumber?
  }

  predicate IsEmbedding(item: Json) {
    item.JObject? && "embedding" in item.fields && IsNumeric(item.fields["embedding"])
  }

  function VectorOf(item: Json): (v: Vector)
    requires IsEmbedding(item)
    ensures v != []
  {
    var raw := item.fields["embedding"].items;
    seq(|raw|, i requires 0 <= i < |raw| && raw[i].JNumber? => raw[i].n)
  }

  /** The slot an item asks for: its `index` if that is a number, otherwise its position. */
  function SlotOf(item: Json, position: nat): real {
    if item.JObject? && "index" in item.fields && item.fields["index"].JNumber? then item.fields["index"].n
    else position as real
  }

  predicate InRange(slot: real, count: nat) {
    slot.Floor as real == slot && 0 <= slot.Floor < count
  }

  /** The slot is the input that the item is for, if it is for one at all. */
  lemma SlotIsInput(data: seq<Json>, p: nat, k: nat)
    requires p < |data|
    ensures IsFor(data, p, k) <==> SlotOf(data[p], p) == k as real
  {
    var item := data[p];
    if item.JObject? && "index" in item.fields && item.fields["index"].JNumber? {
      assert Names(item, item.fields["index"].n);
    }
  }

  lemma VectorIsCarried(item: Json, v: Vector)
    ensures Carries(item, v) <==> IsEmbedding(item) && v == VectorOf(item)
  {
    if Carries(item, v) {
      assert v == VectorOf(item);
    }
  }

  predicate HasData(body: Json) {
    body.JObject? && "data" in body.fields && body.fields["data"].JArray?
  }

  // ------------------------------------------------------------------- pigeonhole

  /** The slots taken by the first `n` items. */
  function Taken(data: seq<Json>, n: nat): set<int>
    requires n <= |data|
  {
    if n == 0 then {} else Taken(data, n - 1) + {SlotOf(data[n - 1], n - 1).Floor}
  }

  ghost predicate GoodUpTo(data: seq<Json>, count: nat, n: nat)
    requires n <= |data|
  {
    && (forall p :: 0 <= p < n ==> IsEmbedding(data[p]) && InRange(SlotOf(data[p], p), count))
    && (forall p, q :: 0 <= p < q < n ==> SlotOf(data[p], p) != SlotOf(data[q], q))
  }

  /** An item is good if it is an embedding with a slot in range. */
  lemma GoodIffInRange(data: seq<Json>, p: nat, count: nat)
    requires p < |data|
    ensures IsGood(data, p, count) <==> IsEmbedding(data[p]) && InRange(SlotOf(data[p], p), count)
  {
    var slot := SlotOf(data[p], p);
    if v :| Carries(data[p], v) {
      VectorIsCarried(data[p], v);
    }
    if IsEmbedding(data[p]) {
      VectorIsCarried(data[p], VectorOf(data[p]));
    }
    if k: nat :| k < count && IsFor(data, p, k) {
      SlotIsInput(data, p, k);
    }
    if InRange(slot, count) {
      SlotIsInput(data, p, slot.Floor);
    }
  }

  /** Two good items clash if they ask for the same slot. */
  lemma ClashIffSameSlot(data: seq<Json>, p: nat, q: nat, count: nat)
    requires p < |data| && q < |data| && InRange(SlotOf(data[p], p), count)
    ensures Clash(data, p, q) <==> SlotOf(data[p], p) == SlotOf(data[q], q)
  {
    var slot: nat := SlotOf(data[p], p).Floor;
    SlotIsInput(data, p, slot);
    SlotIsInput(data, q, slot);
    if k: nat :| IsFor(data, p, k) && IsFor(data, q, k) {
      SlotIsInput(data, p, k);
      SlotIsInput(data, q, k);
    }
  }

  lemma WellFormedIffGood(data: seq<Json>, count: nat)
    ensures WellFormed(data, count) <==> |data| == count && GoodUpTo(data, count, |data|)
  {
    forall p: nat | p < |data|
      ensures IsGood(data, p, count) <==> IsEmbedding(data[p]) && InRange(SlotOf(data[p], p), count)
    {
      GoodIffInRange(data, p, count);
    }
    forall p: nat, q: nat | p < q < |data| && InRange(SlotOf(data[p], p), count)
      ensures Clash(data, p, q) <==> SlotOf(data[p], p) == SlotOf(data[q], q)
    {
      ClashIffSameSlot(data, p, q, count);
    }
  }

  lemma PutIsFor(data: seq<Json>, p: nat, k: nat, v: Vector)
    requires p < |data|
    ensures Puts(data, p, k, v) <==> IsFor(data, p, k) && Carries(data[p], v)
  {
    SlotIsInput(data, p, k);
    VectorIsCarried(data[p], v);
  }

  /** One of the first `n` items asks for slot `k`. */
  ghost predicate Asked(data: seq<Json>, n: nat, k: int)
    requires n <= |data|
  {
    exists p :: 0 <= p < n && SlotOf(data[p], p) == k as real
  }

  /** The slot of item `n` is a whole number that no earlier item asked for. */
  lemma NewSlot(data: seq<Json>, count: nat, n: nat)
    requires n < |data| && GoodUpTo(data, count, n + 1)
    ensures SlotOf(data[n], n) == SlotOf(data[n], n).Floor as real
    ensures 0 <= SlotOf(data[n], n).Floor < count && !Asked(data, n, SlotOf(data[n], n).Floor)
  {
  }

  lemma {:induction false} TakenAre(data: seq<Json>, count: nat, n: nat)
    requires n <= |data| && GoodUpTo(data, count, n)
    ensures forall k :: k in Taken(data, n) <==> Asked(data, n, k)
    ensures |Taken(data, n)| == n
  {
    if n > 0 {
      TakenAre(data, count, n - 1);
      NewSlot(data, count, n - 1);
      AskedNext(data, n - 1);
      TakenNext(data, n - 1, Taken(data, n - 1), SlotOf(data[n - 1], n - 1).Floor);
    }
  }

  lemma TakenNext(data: seq<Json>, n: nat, taken: set<int>, slot: int)
    requires n < |data| && SlotOf(data[n], n) == slot as real && !Asked(data, n, slot)
    requires forall k :: Asked(data, n + 1, k) <==> Asked(data, n, k) || SlotOf(data[n], n) == k as real
    requires (forall k :: k in taken <==> Asked(data, n, k)) && |taken| == n
    ensures forall k :: k in taken + {slot} <==> Asked(data, n + 1, k)
    ensures |taken + {slot}| == n + 1
  {
    SizeOfAdd(taken, slot);
  }

  lemma AskedNext(data: seq<Json>, n: nat)
    requires n < |data|
    ensures forall k :: Asked(data, n + 1, k) <==> Asked(data, n, k) || SlotOf(data[n], n) == k as real
  {
    forall k
      ensures Asked(data, n + 1, k) <==> Asked(data, n, k) || SlotOf(data[n], n) == k as real
    {
      if Asked(data, n + 1, k) {
        var p :| 0 <= p < n + 1 && SlotOf(data[p], p) == k as real;
        assert p < n ==> Asked(data, n, k);
      }
    }
  }

  /** As many distinct slots as there are: every slot is taken. */
  lemma AllTaken(data: seq<Json>, count: nat)
    requires |data| == count && GoodUpTo(data, count, count)
    ensures forall k :: 0 <= k < count ==> Asked(data, |data|, k)
  {
    TakenAre(data, count, count);
    assert forall k :: k in Taken(data, count) ==> Asked(data, count, k) && 0 <= k < count;
    SubsetOfSameSize(Taken(data, count), UpTo(count));
    assert forall k :: 0 <= k < count ==> k in Taken(data, count);
  }

  // ---------------------------------------------------------------- parseEmbeddings

  /** The slots after `n` items: filled exactly by those items. */
  ghost predicate Filled(data: seq<Json>, slots: seq<Option<Vector>>, n: nat)
    requires n <= |data|
  {
    forall k :: 0 <= k < |slots| ==>
      && (slots[k].Some? ==> exists p :: 0 <= p < n && Puts(data, p, k, slots[k].value))
      && (forall p :: 0 <= p < n && SlotOf(data[p], p) == k as real ==> slots[k].Some?)
  }

  ghost predicate Puts(data: seq<Json>, p: int, k: int, v: Vector)
    requires 0 <= p < |data|
  {
    IsEmbedding(data[p]) && SlotOf(data[p], p) == k as real && v == VectorOf(data[p])
  }

  /** An item is refused exactly when it is no embedding, or its slot is out of range or taken. */
  method PlaceItem(data: seq<Json>, slots: array<Option<Vector>>, position: nat) returns (ok: bool)
    requires position < |data| && GoodUpTo(data, slots.Length, position) && Filled(data, slots[..], position)
    modifies slots
    ensures ok <==> GoodUpTo(data, slots.Length, position + 1)
    ensures ok ==> Filled(data, slots[..], position + 1)
  {
    var item := data[position];
    if !IsEmbedding(item) {
      return false;
    }
    var slot := SlotOf(item, position);
    if slot.Floor as real != slot || slot.Floor < 0 || slot.Floor >= slots.Length {
      return false;
    }
    ghost var before := slots[..];
    if slots[slot.Floor].Some? {
      assert before[slot.Floor].Some?;
      return false;
    }
    slots[slot.Floor] := Some(VectorOf(item));
    StillFilled(data, before, slots[..], position, slot.Floor);
    return true;
  }

  lemma StillFilled(data: seq<Json>, before: seq<Option<Vector>>, after: seq<Option<Vector>>, position: nat, k: nat)
    requires position < |data| && k < |before| && Filled(data, before, position) && before[k].None?
    requires IsEmbedding(data[position]) && SlotOf(data[position], position) == k as real
    requires after == before[k := Some(VectorOf(data[position]))]
    ensures Filled(data, after, position + 1)
    ensures forall p :: 0 <= p < position ==> SlotOf(data[p], p) != SlotOf(data[position], position)
  {
    forall j | 0 <= j < |after| && after[j].Some?
      ensures exists p :: 0 <= p < position + 1 && Puts(data, p, j, after[j].value)
    {
      if j == k {
        assert Puts(data, position, k, after[k].value);
      } else {
        var p :| 0 <= p < position && Puts(data, p, j, before[j].value);
      }
    }
  }

  /**
   * Parsing succeeds if and only if the response holds one numeric vector per
   * input under distinct indices, and then every input has its vector.
   */
  method ParseEmbeddings(body: Json, expectedCount: nat) returns (r: Option<seq<Vector>>)
    ensures r.Some? <==> HasData(body) && WellFormed(body.fields["data"].items, expectedCount)
    ensures r.Some? ==> Ordered(body.fields["data"].items, r.value)
  {
    if HasData(body) {
      WellFormedIffGood(body.fields["data"].items, expectedCount);
    }
    if !HasData(body) || |body.fields["data"].items| != expectedCount {
      return None;
    }
    var data := body.fields["data"].items;
    var slots := new Option<Vector>[expectedCount](_ => None);
    for position := 0 to |data|
      invariant GoodUpTo(data, expectedCount, position) && Filled(data, slots[..], position)
    {
      var ok := PlaceItem(data, slots, position);
      if !ok {
        return None;
      }
    }
    AllTaken(data, expectedCount);
    r := Some(Unwrapped(data, slots[..]));
  }

  lemma AllFilled(data: seq<Json>, slots: seq<Option<Vector>>)
    requires Filled(data, slots, |data|) && |slots| == |data|
    requires forall k :: 0 <= k < |slots| ==> Asked(data, |data|, k)
    ensures forall k :: 0 <= k < |slots| ==> slots[k].Some? && ComesFrom(data, k, slots[k].value)
  {
    forall k | 0 <= k < |slots|
      ensures slots[k].Some? && ComesFrom(data, k, slots[k].value)
    {
      assert Asked(data, |data|, k);
      var p :| 0 <= p < |data| && SlotOf(data[p], p) == k as real;
      assert slots[k].Some?;
      var q :| 0 <= q < |data| && Puts(data, q, k, slots[k].value);
      PutIsFor(data, q, k, slots[k].value);
    }
  }

  function Unwrapped(data: seq<Json>, slots: seq<Option<Vector>>): (r: seq<Vector>)
    requires Filled(data, slots, |data|) && |slots| == |data|
    requires forall k :: 0 <= k < |slots| ==> Asked(data, |data|, k)
    ensures Ordered(data, r)
  {
    AllFilled(data, slots);
    seq(|slots|, k requires 0 <= k < |slots| && slots[k].Some? => slots[k].value)
  }

  /** Distinct indices leave no choice: the vectors in slot order are a permutation of the vectors sent. */
  lemma OrderedIsUnique(data: seq<Json>, a: seq<Vector>, b: seq<Vector>)
    requires WellFormed(data, |data|) && Ordered(data, a) && Ordered(data, b)
    ensures a == b
  {
    forall k | 0 <= k < |a|
      ensures a[k] == b[k]
    {
      OneOrigin(data, k, a[k], b[k]);
    }
  }

  lemma OneOrigin(data: seq<Json>, k: nat, v: Vector, w: Vector)
    requires WellFormed(data, |data|) && ComesFrom(data, k, v) && ComesFrom(data, k, w)
    ensures v == w
  {
    var p: nat :| p < |data| && IsFor(data, p, k) && Carries(data[p], v);
    var q: nat :| q < |data| && IsFor(data, q, k) && Carries(data[q], w);
    assert p != q ==> Clash(data, p, q) && Clash(data, q, p);
    VectorIsCarried(data[p], v);
    VectorIsCarried(data[p], w);
  }

  /**
   * What success says item by item: an `index` that is a number names a place,
   * and there the item's vector is; without one it is at the item's own place.
   */
  lemma PlacedAsNamed(data: seq<Json>, vectors: seq<Vector>, p: nat)
    requires WellFormed(data, |data|) && Ordered(data, vectors) && p < |data|
    ensures forall n :: Names(data[p], n) ==>
              n.Floor as real == n && 0 <= n.Floor < |vectors| && Carries(data[p], vectors[n.Floor])
              && forall q: nat :: q < |data| && q != p ==> !Names(data[q], n)
    ensures (forall n :: !Names(data[p], n)) ==> Carries(data[p], vectors[p])
  {
    assert IsGood(data, p, |data|);
    var k: nat :| k < |data| && IsFor(data, p, k);
    assert ComesFrom(data, k, vectors[k]);
    var q: nat :| q < |data| && IsFor(data, q, k) && Carries(data[q], vectors[k]);
    assert p != q ==> Clash(data, p, q) && Clash(data, q, p);
    forall n | Names(data[p], n)
      ensures n == k as real && forall q: nat :: q < |data| && q != p ==> !Names(data[q], n)
    {
      forall q: nat | q < |data| && q != p
        ensures !Names(data[q], n)
      {
        assert (p < q ==> !Clash(data, p, q)) && (q < p ==> !Clash(data, q, p));
        assert !IsFor(data, q, k);
      }
    }
  }

  // ------------------------------------------------------------------------- embed

  /** Text `i` goes out in batch `i / 64`, whose answer is `answer(i / 64)`. */
  type Server = nat -> Result<Json, ErrorKind>

  function BatchSize(count: nat, batch: nat): nat
    requires batch * MAX_BATCH < count
  {
    Min(MAX_BATCH, count - batch * MAX_BATCH)
  }

  ghost predicate GoodAnswer(answer: Server, count: nat, batch: nat)
    requires batch * MAX_BATCH < count
  {
    && answer(batch).Ok? && HasData(answer(batch).value)
    && WellFormed(answer(batch).value.fields["data"].items, BatchSize(count, batch))
  }

  ghost predicate GoodAnswers(answer: Server, count: nat) {
    forall batch: nat :: batch * MAX_BATCH < count ==> GoodAnswer(answer, count, batch)
  }

  /** The first batch that was not answered well, and how the call fails for it. */
  ghost predicate FirstFailure(answer: Server, count: nat, e: ErrorKind) {
    exists batch: nat :: batch * MAX_BATCH < count && FailsFirst(answer, count, batch, e)
  }

  ghost predicate FailsFirst(answer: Server, count: nat, batch: nat, e: ErrorKind)
    requires batch * MAX_BATCH < count
  {
    && !GoodAnswer(answer, count, batch) && (forall b: nat :: b < batch && b * MAX_BATCH < count ==> GoodAnswer(answer, count, b))
    && e == if answer(batch).Err? then answer(batch).error else ErrorKind.Server
  }

  /** The vector of text `i` is the one its own batch's answer gives for its own place. */
  ghost predicate Embeds(answer: Server, i: nat, v: Vector) {
    && answer(i / MAX_BATCH).Ok? && HasData(answer(i / MAX_BATCH).value)
    && ComesFrom(answer(i / MAX_BATCH).value.fields["data"].items, i % MAX_BATCH, v)
  }

  /** Every vector that the answers give for a text has `dimensions` numbers. */
  ghost predicate OfDimension(answer: Server, count: nat, dimensions: nat) {
    forall i: nat, v :: i < count && Embeds(answer, i, v) ==> |v| == dimensions
  }

  /** There is one dimension for all texts, the expected one if one is expected. */
  ghost predicate Agreeing(answer: Server, count: nat, expected: Option<nat>) {
    exists d: nat :: expected.GetOr(d) == d && OfDimension(answer, count, d)
  }

  lemma EmbedsOnce(answer: Server, count: nat, i: nat, v: Vector, w: Vector)
    requires GoodAnswers(answer, count) && i < count && Embeds(answer, i, v) && Embeds(answer, i, w)
    ensures v == w
  {
    var batch := i / MAX_BATCH;
    assert batch * MAX_BATCH <= i;
    assert GoodAnswer(answer, count, batch);
    OneOrigin(answer(batch).value.fields["data"].items, i % MAX_BATCH, v, w);
  }

  /** The dimensions of the vectors that were read decide whether the answers agree. */
  lemma DimensionsAgree(answer: Server, vectors: seq<Vector>, expected: Option<nat>)
    requires vectors != [] && GoodAnswers(answer, |vectors|)
    requires forall i :: 0 <= i < |vectors| ==> Embeds(answer, i, vectors[i])
    ensures Agreeing(answer, |vectors|, expected) <==>
            SameDimension(vectors, |vectors[0]|) && expected.GetOr(|vectors[0]|) == |vectors[0]|
  {
    if SameDimension(vectors, |vectors[0]|) {
      forall i: nat, v | i < |vectors| && Embeds(answer, i, v)
        ensures |v| == |vectors[0]|
      {
        EmbedsOnce(answer, |vectors|, i, v, vectors[i]);
      }
      assert OfDimension(answer, |vectors|, |vectors[0]|);
    }
    if d: nat :| expected.GetOr(d) == d && OfDimension(answer, |vectors|, d) {
      assert Embeds(answer, 0, vectors[0]);
    }
  }

  predicate SameDimension(vectors: seq<Vector>, dimensions: nat) {
    forall i :: 0 <= i < |vectors| ==> |vectors[i]| == dimensions
  }

  predicate SendableTexts(texts: seq<string>) {
    texts != [] && forall i :: 0 <= i < |texts| ==> Trim(texts[i]) != ""
  }

  datatype EmbeddingResponse = EmbeddingResponse(vectors: seq<Vector>, dimensions: nat)

  class OpenAICompatibleEmbeddingProvider {
    const requestedDimensions: Option<nat>
    var observedDimensions: Option<nat>

    constructor (requestedDimensions: Option<nat>)
      ensures this.requestedDimensions == requestedDimensions && observedDimensions == None
    {
      this.requestedDimensions, observedDimensions := requestedDimensions, None;
    }

    /** The requested size, otherwise the one observed earlier, if any. */
    function Expected(): Option<nat>
      reads this
    {
      if requestedDimensions.Some? then requestedDimensions else observedDimensions
    }

    method CheckDimensions(vectors: seq<Vector>) returns (r: Option<nat>)
      modifies this
      ensures var dimensions := if vectors == [] then 0 else |vectors[0]|;
              && (r.Some? <==> SameDimension(vectors, dimensions) && old(Expected()).GetOr(dimensions) == dimensions)
              && (r.Some? ==> r.value == dimensions)
      ensures observedDimensions == if r.Some? then r else old(observedDimensions)
    {
      var dimensions := if vectors == [] then 0 else |vectors[0]|;
      for i := 0 to |vectors|
        invariant SameDimension(vectors[..i], dimensions) && observedDimensions == old(observedDimensions)
      {
        assert vectors[..i + 1][i] == vectors[i];
        if |vectors[i]| != dimensions {
          return None;
        }
      }
      assert vectors[..|vectors|] == vectors;
      var expected := Expected();
      if expected.Some? && dimensions != expected.value {
        return None;
      }
      observedDimensions := Some(dimensions);
      r := Some(dimensions);
    }

    /** The batch loop: in text order, one vector per text. */
    method EmbedBatches(texts: seq<string>, answer: Server) returns (r: Result<seq<Vector>, ErrorKind>)
      ensures r.Ok? <==> GoodAnswers(answer, |texts|)
      ensures r.Err? ==> FirstFailure(answer, |texts|, r.error)
      ensures r.Ok? ==> |r.value| == |texts| && forall i :: 0 <= i < |texts| ==> Embeds(answer, i, r.value[i])
    {
      var vectors: seq<Vector> := [];
      var start, batch := 0, 0;
      while start < |texts|
        invariant start == batch * MAX_BATCH && |vectors| == Min(start, |texts|)
        invariant forall b: nat :: b < batch && b * MAX_BATCH < |texts| ==> GoodAnswer(answer, |texts|, b)
        invariant forall i :: 0 <= i < |vectors| ==> Embeds(answer, i, vectors[i])
        decreases |texts| - start
      {
        var parsed := ParseBatch(answer(batch), BatchSize(|texts|, batch));
        if parsed.Err? {
          assert !GoodAnswer(answer, |texts|, batch);
          assert FailsFirst(answer, |texts|, batch, parsed.error);
          return Err(parsed.error);
        }
        BatchEmbeds(answer, batch, BatchSize(|texts|, batch), parsed.value);
        vectors := vectors + parsed.value;
        start, batch := start + MAX_BATCH, batch + 1;
      }
      r := Ok(vectors);
    }

    method ParseBatch(answered: Result<Json, ErrorKind>, size: nat) returns (r: Result<seq<Vector>, ErrorKind>)
      ensures r.Ok? <==> answered.Ok? && HasData(answered.value) && WellFormed(answered.value.fields["data"].items, size)
      ensures r.Ok? ==> |r.value| == size && Ordered(answered.value.fields["data"].items, r.value)
      ensures r.Err? ==> r.error == if answered.Err? then answered.error else ErrorKind.Server
    {
      var json :- answered;
      var parsed := ParseEmbeddings(json, size);
      if parsed.None? {
        return Err(Server);
      }
      r := Ok(parsed.value);
    }

    /**
     * Succeeds if and only if no text is blank, every batch is answered well and
     * all vectors have one dimension, the requested one or the one of every earlier
     * response. A response then has exactly one vector per text, in text order.
     */
    method Embed(texts: seq<string>, answer: Server) returns (r: Result<EmbeddingResponse, ErrorKind>)
      modifies this
      ensures !SendableTexts(texts) ==> r == Err(BadRequest)
      ensures SendableTexts(texts) && r.Err? ==>
                if GoodAnswers(answer, |texts|) then r.error == ErrorKind.Server else FirstFailure(answer, |texts|, r.error)
      ensures r.Ok? <==> SendableTexts(texts) && GoodAnswers(answer, |texts|) && Agreeing(answer, |texts|, old(Expected()))
      ensures r.Ok? ==> |r.value.vectors| == |texts|
                        && forall i :: 0 <= i < |texts| ==> Embeds(answer, i, r.value.vectors[i])
      ensures r.Ok? ==> r.value.dimensions > 0 && SameDimension(r.value.vectors, r.value.dimensions)
      ensures r.Ok? ==> Expected() == Some(r.value.dimensions) && observedDimensions == Some(r.value.dimensions)
      ensures old(Expected()).Some? ==> Expected() == old(Expected())
      ensures r.Err? ==> observedDimensions == old(observedDimensions)
    {
      if |texts| == 0 {
        return Err(BadRequest);
      }
      for i := 0 to |texts|
        invariant forall j :: 0 <= j < i ==> Trim(texts[j]) != ""
      {
        if Trim(texts[i]) == "" {
          return Err(BadRequest);
        }
      }
      var vectors :- EmbedBatches(texts, answer);
      assert Embeds(answer, 0, vectors[0]);
      DimensionsAgree(answer, vectors, Expected());
      var dimensions := CheckDimensions(vectors);
      if dimensions.None? {
        return Err(Server);
      }
      r := Ok(EmbeddingResponse(vectors, dimensions.value));
    }
  }

  lemma BatchEmbeds(answer: Server, batch: nat, size: nat, vectors: seq<Vector>)
    requires size <= MAX_BATCH && answer(batch).Ok? && HasData(answer(batch).value)
    requires |vectors| == size && Ordered(answer(batch).value.fields["data"].items, vectors)
    ensures forall k :: 0 <= k < size ==> Embeds(answer, batch * MAX_BATCH + k, vectors[k])
  {
    forall k | 0 <= k < size
      ensures Embeds(answer, batch * MAX_BATCH + k, vectors[k])
    {
      assert (batch * MAX_BATCH + k) / MAX_BATCH == batch && (batch * MAX_BATCH + k) % MAX_BATCH == k;
    }
  }
}
