/**
 * The two event records, how a tick builds them (index.js:71-83,
 * 102-111), and the fixed-shape `JSON.stringify` that turns them into
 * payloads (index.js:92, 130).
 */
module Events {
  import opened Wrappers
  import opened JsStrings
  import opened Hex
  import opened Letters
  import opened Spreads

  /** `{spread, asset_one, asset_two, trigger}`; `asset_two` is undefined when the spread has no `_`. */
  datatype TriggerEvent = TriggerEvent(spread: string, assetOne: string, assetTwo: Option<string>, trigger: bool)

  /** `{asset, value}`; `asset` is undefined for a worker beyond the asset list. */
  datatype OrderbookEvent = OrderbookEvent(asset: Option<string>, value: string)

  /** The TypeErrors a tick can throw. */
  datatype Fault =
    | SplitOfUndefined  // `allSpreads[randomIndex]` is undefined and `.split` is called on it
    | KeyNotString      // `Buffer.from(undefined)` for the message key

  /**
   * `generateRandomTrigger` with its two random draws passed in:
   * `randomIndex` stands for `Math.floor(Math.random() * allSpreads.length)`
   * and `randomTrigger` for `Math.random() >= 0.5`.
   */
  function GenerateRandomTrigger(allSpreads: seq<string>, randomIndex: nat, randomTrigger: bool)
    : (r: Result<TriggerEvent, Fault>)
    ensures r.Success? <==> randomIndex < |allSpreads|
    ensures r.Failure? ==> r.error == SplitOfUndefined
    ensures r.Success? ==> r.value.spread == allSpreads[randomIndex] && r.value.trigger == randomTrigger
    ensures r.Success? ==> Underscore !in r.value.assetOne && r.value.assetOne <= r.value.spread
    ensures r.Success? ==> (r.value.assetTwo.Some? <==> Underscore in r.value.spread)
    ensures r.Success? && r.value.assetTwo.None? ==> r.value.assetOne == r.value.spread
  {
    if randomIndex < |allSpreads| then
      var randomSpread := allSpreads[randomIndex];
      var parts := Split(randomSpread, Underscore);
      SplitFirstPiece(randomSpread, Underscore);
      JoinSplit(randomSpread, Underscore);
      Success(TriggerEvent(randomSpread, parts[0], if |parts| > 1 then Some(parts[1]) else None, randomTrigger))
    else
      Failure(SplitOfUndefined)
  }

  /**
   * For the universe built from a well-formed asset list, every index in
   * range yields a spread `X_Y` of two different letters of the list,
   * split back into exactly those letters.
   */
  lemma TriggerFromUniverse(letters: seq<string>, randomIndex: nat, randomTrigger: bool)
    requires WellFormed(letters)
    requires randomIndex < |AllSpreads(letters)|
    ensures var r := GenerateRandomTrigger(AllSpreads(letters), randomIndex, randomTrigger);
      && r.Success?
      && r.value.spread == AllSpreads(letters)[randomIndex]
      && r.value.assetTwo.Some?
      && r.value.spread == Spread(r.value.assetOne, r.value.assetTwo.value)
      && r.value.assetOne in letters && r.value.assetTwo.value in letters
      && r.value.assetOne != r.value.assetTwo.value
      && r.value.trigger == randomTrigger
  {
    AllSpreadsEntry(letters, randomIndex);
    var i: nat, j: nat :| i < |letters| && j < |letters| && i != j
                          && randomIndex == PairIndex(|letters|, i, j)
                          && AllSpreads(letters)[randomIndex] == Spread(letters[i], letters[j]);
    LetterHasNoUnderscore(letters, i);
    LetterHasNoUnderscore(letters, j);
    SplitSpread(letters[i], letters[j]);
    WellFormedDistinct(letters);
  }

  /** An empty universe (fewer than two letters) makes every tick throw. */
  lemma TriggerFaultsOnEmptyUniverse(letters: seq<string>, randomTrigger: bool)
    requires |letters| <= 1
    ensures GenerateRandomTrigger(AllSpreads(letters), 0, randomTrigger) == Failure(SplitOfUndefined)
  {
    AllSpreadsLength(letters);
  }

  /** `generateFakeOrderbook` with `randomBytes(6)` passed in. */
  function GenerateFakeOrderbook(workerAsset: Option<string>, randomBytes: seq<byte>): (e: OrderbookEvent)
    requires |randomBytes| == 6
    ensures e.asset == workerAsset
    ensures |e.value| == 12
    ensures forall k :: 0 <= k < 12 ==> IsUpperHexDigit(e.value[k])
    ensures FromUpperHex(e.value) == Some(randomBytes)
  {
    OrderbookValueOfSixBytes(randomBytes);
    DecodeValue(randomBytes);
    OrderbookEvent(workerAsset, OrderbookValue(randomBytes))
  }

  // ---------------------------------------------------------------------
  // Payloads: `JSON.stringify` of the two fixed record shapes. Members are
  // written in insertion order, without spaces; an undefined member is
  // left out.

  const Quote: char := '"'

  /** Characters `JSON.stringify` writes unescaped inside a string. */
  predicate JsonPlain(s: string) {
    forall k :: 0 <= k < |s| ==> s[k] != Quote && s[k] != '\\' && s[k] >= ' '
  }

  function JsonBool(b: bool): string {
    if b then "true" else "false"
  }

  function TriggerJson(e: TriggerEvent): string {
    "{\"spread\":\"" + e.spread + [Quote] + AfterSpread(e)
  }

  function AfterSpread(e: TriggerEvent): string {
    ",\"asset_one\":\"" + e.assetOne + [Quote] + AfterAssetOne(e)
  }

  function AfterAssetOne(e: TriggerEvent): string {
    match e.assetTwo
    case Some(two) => ",\"asset_two\":\"" + two + [Quote] + AfterAssetTwo(e)
    case None => AfterAssetTwo(e)
  }

  function AfterAssetTwo(e: TriggerEvent): string {
    ",\"trigger\":" + JsonBool(e.trigger) + "}"
  }

  function OrderbookJson(e: OrderbookEvent): string {
    match e.asset
    case Some(a) => "{\"asset\":\"" + a + [Quote] + ("," + ValueJson(e))
    case None => "{" + ValueJson(e)
  }

  function ValueJson(e: OrderbookEvent): string {
    "\"value\":\"" + e.value + [Quote] + "}"
  }

  predicate TriggerPlain(e: TriggerEvent) {
    JsonPlain(e.spread) && JsonPlain(e.assetOne) && (e.assetTwo.Some? ==> JsonPlain(e.assetTwo.value))
  }

  /** Peels `prefix + a + "\"" + x` into `a` and `x` when `a` has no quote. */
  lemma PeelMember(prefix: string, a: string, x: string, b: string, y: string)
    requires Quote !in a && Quote !in b
    requires prefix + a + [Quote] + x == prefix + b + [Quote] + y
    ensures a == b && x == y
  {
    var s := prefix + a + [Quote] + x;
    var t := prefix + b + [Quote] + y;
    assert s[|prefix|..] == a + [Quote] + x;
    assert t[|prefix|..] == b + [Quote] + y;
    CancelAtFirst(a, x, b, y, Quote);
  }

  lemma PlainHasNoQuote(s: string)
    requires JsonPlain(s)
    ensures Quote !in s
  {
  }

  /** `asset_two` and the boolean are told apart by fixed characters of the text. */
  lemma TailMarkers(e: TriggerEvent)
    ensures |AfterAssetOne(e)| > 2 && |AfterAssetTwo(e)| > 11
    ensures AfterAssetOne(e)[2] == if e.assetTwo.Some? then 'a' else 't'
    ensures AfterAssetTwo(e)[11] == if e.trigger then 't' else 'f'
  {
  }

  /** A trigger payload determines its event: a consumer can read the event back. */
  lemma TriggerJsonInjective(e1: TriggerEvent, e2: TriggerEvent)
    requires TriggerPlain(e1) && TriggerPlain(e2)
    requires TriggerJson(e1) == TriggerJson(e2)
    ensures e1 == e2
  {
    PlainHasNoQuote(e1.spread);
    PlainHasNoQuote(e2.spread);
    PeelMember("{\"spread\":\"", e1.spread, AfterSpread(e1), e2.spread, AfterSpread(e2));
    PlainHasNoQuote(e1.assetOne);
    PlainHasNoQuote(e2.assetOne);
    PeelMember(",\"asset_one\":\"", e1.assetOne, AfterAssetOne(e1), e2.assetOne, AfterAssetOne(e2));
    TailMarkers(e1);
    TailMarkers(e2);
    assert e1.assetTwo.Some? == e2.assetTwo.Some?;
    if e1.assetTwo.Some? {
      PlainHasNoQuote(e1.assetTwo.value);
      PlainHasNoQuote(e2.assetTwo.value);
      PeelMember(",\"asset_two\":\"", e1.assetTwo.value, AfterAssetTwo(e1),
                 e2.assetTwo.value, AfterAssetTwo(e2));
    }
    assert e1.trigger == e2.trigger;
  }

  /** An order-book payload determines its event. */
  lemma OrderbookJsonInjective(e1: OrderbookEvent, e2: OrderbookEvent)
    requires e1.asset.Some? ==> JsonPlain(e1.asset.value)
    requires e2.asset.Some? ==> JsonPlain(e2.asset.value)
    requires JsonPlain(e1.value) && JsonPlain(e2.value)
    requires OrderbookJson(e1) == OrderbookJson(e2)
    ensures e1 == e2
  {
    var j1, j2 := OrderbookJson(e1), OrderbookJson(e2);
    assert j1[2] == (if e1.asset.Some? then 'a' else 'v');
    assert j2[2] == (if e2.asset.Some? then 'a' else 'v');
    PlainHasNoQuote(e1.value);
    PlainHasNoQuote(e2.value);
    var v1, v2 := ValueJson(e1), ValueJson(e2);
    if e1.asset.Some? {
      PlainHasNoQuote(e1.asset.value);
      PlainHasNoQuote(e2.asset.value);
      PeelMember("{\"asset\":\"", e1.asset.value, "," + v1, e2.asset.value, "," + v2);
      assert v1 == ("," + v1)[1..];
    } else {
      assert v1 == j1[1..] && v2 == j2[1..];
    }
    PeelMember("\"value\":\"", e1.value, "}", e2.value, "}");
  }

  /**
   * Every string a generated event carries is written by `JSON.stringify`
   * without escapes: letters, `_`, and upper-case hex digits.
   */
  lemma GeneratedEventsArePlain(letters: seq<string>, randomIndex: nat, randomTrigger: bool,
                                workerAsset: Option<string>, randomBytes: seq<byte>)
    requires WellFormed(letters)
    requires randomIndex < |AllSpreads(letters)|
    requires workerAsset.Some? ==> workerAsset.value in letters
    requires |randomBytes| == 6
    ensures TriggerPlain(GenerateRandomTrigger(AllSpreads(letters), randomIndex, randomTrigger).value)
    ensures var ob := GenerateFakeOrderbook(workerAsset, randomBytes);
      (ob.asset.Some? ==> JsonPlain(ob.asset.value)) && JsonPlain(ob.value)
  {
    TriggerFromUniverse(letters, randomIndex, randomTrigger);
    var e := GenerateRandomTrigger(AllSpreads(letters), randomIndex, randomTrigger).value;
    LetterInListPlain(letters, e.assetOne);
    LetterInListPlain(letters, e.assetTwo.value);
    SpreadPlain(e.assetOne, e.assetTwo.value);
    if workerAsset.Some? {
      LetterInListPlain(letters, workerAsset.value);
    }
    HexPlain(GenerateFakeOrderbook(workerAsset, randomBytes).value);
  }

  lemma LetterInListPlain(letters: seq<string>, s: string)
    requires WellFormed(letters) && s in letters
    ensures JsonPlain(s)
  {
    var i :| 0 <= i < |letters| && letters[i] == s;
    assert IsLetter(letters[i]);
  }

  lemma SpreadPlain(a: string, b: string)
    requires JsonPlain(a) && JsonPlain(b)
    ensures JsonPlain(Spread(a, b))
  {
    var s := Spread(a, b);
    forall k | 0 <= k < |s|
      ensures s[k] != Quote && s[k] != '\\' && s[k] >= ' '
    {
      if k < |a| {
        assert s[k] == a[k];
      } else if k > |a| {
        assert s[k] == b[k - |a| - 1];
      }
    }
  }

  lemma HexPlain(v: string)
    requires forall k :: 0 <= k < |v| ==> IsUpperHexDigit(v[k])
    ensures JsonPlain(v)
  {
  }
}
