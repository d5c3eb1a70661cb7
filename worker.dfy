/**
 * What one worker does: its role from its index (index.js:47-49, 97-100),
 * and what it hands to `producer.produce` on each tick (index.js:87-95,
 * 123-133).
 */
module Worker {
  import opened Wrappers
  import opened Letters
  import opened Spreads
  import opened Hex
  import opened Events

  /** The active-streams (trigger) worker, or the order-book worker of one asset. */
  datatype Role = ActiveStreams | OrderbookStream(asset: Option<string>)

  /** The topic names read from the environment. */
  datatype Config = Config(topicActive: string, topicOb: string)

  /** The arguments of one `producer.produce(topic, partition, message, key)` call. */
  datatype Produce = Produce(topic: string, partition: int, message: string, key: string)

  /** Partition -1: the broker picks the partition from the key. */
  const AnyPartition: int := -1

  /** One tick's random draws for the trigger worker. */
  datatype Draw = Draw(index: nat, trigger: bool)

  /**
   * The role of the worker with `workerId = cluster.worker.id - 1`:
   * index 0 does active streams, index `w` the order book of
   * `letterArray[w - 1]`, which is undefined past the end of the list.
   */
  function RoleOf(letterArray: seq<string>, workerId: nat): Role {
    if workerId == 0 then ActiveStreams
    else OrderbookStream(if workerId - 1 < |letterArray| then Some(letterArray[workerId - 1]) else None)
  }

  /** The roles of the `numCPUs` workers forked at start-up, by worker index. */
  function Plan(numCPUs: nat): (plan: seq<Role>)
    ensures |plan| == numCPUs
  {
    seq(numCPUs, w requires 0 <= w < numCPUs => RoleOf(LetterArray(numCPUs), w))
  }

  /**
   * Index 0 alone is the trigger worker; index `w` in `1..k` owns
   * `letterArray[w - 1]`; past `k` the asset is undefined.
   */
  lemma RoleAssignment(letterArray: seq<string>, workerId: nat)
    ensures RoleOf(letterArray, workerId).ActiveStreams? <==> workerId == 0
    ensures 1 <= workerId <= |letterArray| ==>
              RoleOf(letterArray, workerId) == OrderbookStream(Some(letterArray[workerId - 1]))
    ensures workerId > |letterArray| ==> RoleOf(letterArray, workerId) == OrderbookStream(None)
  {
  }

  /** Over a list without repeats, different order-book workers own different assets. */
  lemma RoleAssetsDistinct(letterArray: seq<string>, w1: nat, w2: nat)
    requires Distinct(letterArray)
    requires 1 <= w1 <= |letterArray| && 1 <= w2 <= |letterArray| && w1 != w2
    ensures RoleOf(letterArray, w1).asset != RoleOf(letterArray, w2).asset
  {
    assert letterArray[w1 - 1] != letterArray[w2 - 1];
  }

  /**
   * With 1 to 27 CPUs, worker 0 is the only trigger worker and workers
   * `1..numCPUs-1` own the letters "A", "B", ... one each, so every
   * letter of the asset list has exactly one owner.
   */
  lemma PlanShape(numCPUs: nat)
    requires 1 <= numCPUs <= 27
    ensures Plan(numCPUs)[0] == ActiveStreams
    ensures forall w :: 0 <= w < numCPUs ==> (Plan(numCPUs)[w].ActiveStreams? <==> w == 0)
    ensures forall w :: 1 <= w < numCPUs ==>
              Plan(numCPUs)[w] == OrderbookStream(Some([('A' as int + w - 1) as char]))
    ensures forall i :: 0 <= i < |LetterArray(numCPUs)| ==>
              Plan(numCPUs)[i + 1] == OrderbookStream(Some(LetterArray(numCPUs)[i]))
    ensures forall w1, w2 :: 1 <= w1 < numCPUs && 1 <= w2 < numCPUs && w1 != w2 ==>
              Plan(numCPUs)[w1].asset != Plan(numCPUs)[w2].asset
  {
    var letters := LetterArray(numCPUs);
    LetterArrayShape(numCPUs);
    assert |letters| == numCPUs - 1;
    forall w1, w2 | 1 <= w1 < numCPUs && 1 <= w2 < numCPUs && w1 != w2
      ensures Plan(numCPUs)[w1].asset != Plan(numCPUs)[w2].asset
    {
      RoleAssetsDistinct(letters, w1, w2);
    }
  }

  /** Past 27 CPUs the asset list stops at "Z": workers 27 and up have no asset. */
  lemma PlanBeyondAlphabet(numCPUs: nat)
    requires numCPUs > 27
    ensures forall w :: 1 <= w <= 26 ==> Plan(numCPUs)[w] == OrderbookStream(Some([('A' as int + w - 1) as char]))
    ensures forall w :: 27 <= w < numCPUs ==> Plan(numCPUs)[w] == OrderbookStream(None)
  {
    LetterArrayShape(numCPUs);
  }

  /**
   * A worker forked to replace a dead one gets a fresh cluster id, so its
   * index is at least `numCPUs`: it is an order-book worker without an asset.
   */
  lemma ReplacementWorkerRole(numCPUs: nat, workerId: nat)
    requires numCPUs >= 1 && workerId >= numCPUs
    ensures RoleOf(LetterArray(numCPUs), workerId) == OrderbookStream(None)
  {
    LetterArrayShape(numCPUs);
  }

  /** Four CPUs: the trigger worker, then "A", "B", "C", and six spreads. */
  lemma FourCpuScenario()
    ensures Plan(4) == [ActiveStreams, OrderbookStream(Some("A")), OrderbookStream(Some("B")),
                        OrderbookStream(Some("C"))]
    ensures AllSpreads(LetterArray(4)) == ["A_B", "A_C", "B_A", "B_C", "C_A", "C_B"]
  {
    LetterArrayShape(4);
    var letters := LetterArray(4);
    assert letters == ["A", "B", "C"];
    assert Spread("A", "B") == "A_B" && Spread("A", "C") == "A_C";
    assert Spread("B", "A") == "B_A" && Spread("B", "C") == "B_C";
    assert Spread("C", "A") == "C_A" && Spread("C", "B") == "C_B";
    assert Row(letters, 0, 1) == [];
    assert Row(letters, 0, 2) == ["A_B"];
    assert Row(letters, 1, 2) == ["B_A"];
    assert Row(letters, 2, 2) == ["C_A", "C_B"];
    assert Rows(letters, 1) == ["A_B", "A_C"];
    assert Rows(letters, 2) == ["A_B", "A_C", "B_A", "B_C"];
  }

  /** One interval tick of the trigger worker (index.js:88-94). */
  function TriggerTick(topic: string, allSpreads: seq<string>, randomIndex: nat, randomTrigger: bool)
    : (r: Result<Produce, Fault>)
    ensures r.Success? <==> randomIndex < |allSpreads|
    ensures r.Failure? ==> r.error == SplitOfUndefined
    ensures r.Success? ==> r.value.topic == topic && r.value.partition == AnyPartition
    ensures r.Success? ==> r.value.key == allSpreads[randomIndex]
    ensures r.Success? ==>
              r.value.message == TriggerJson(GenerateRandomTrigger(allSpreads, randomIndex, randomTrigger).value)
  {
    match GenerateRandomTrigger(allSpreads, randomIndex, randomTrigger)
    case Failure(f) => Failure(f)
    case Success(e) => Success(Produce(topic, AnyPartition, TriggerJson(e), e.spread))
  }

  /** One interval tick of an order-book worker, republishing the record built on `ready` (index.js:127-132). */
  function OrderbookTick(topic: string, workerAsset: Option<string>, orderbook: OrderbookEvent)
    : (r: Result<Produce, Fault>)
    ensures r.Success? <==> workerAsset.Some?
    ensures r.Failure? ==> r.error == KeyNotString
    ensures r.Success? ==>
              r.value == Produce(topic, AnyPartition, OrderbookJson(orderbook), workerAsset.value)
  {
    match workerAsset
    case None => Failure(KeyNotString)
    case Some(asset) => Success(Produce(topic, AnyPartition, OrderbookJson(orderbook), asset))
  }

  /**
   * The messages a worker has handed to `produce`, in tick order, and the
   * error that killed its process, if one did: a throw inside the interval
   * callback is uncaught, so no tick runs after it.
   */
  datatype Run = Run(published: seq<Produce>, crash: Option<Fault>)

  /** The trigger worker over the ticks whose draws are `draws`. */
  function TriggerRun(topic: string, allSpreads: seq<string>, draws: seq<Draw>): (r: Run)
    ensures |r.published| <= |draws|
    ensures r.crash.None? ==> |r.published| == |draws|
    decreases |draws|
  {
    if |draws| == 0 then Run([], None)
    else
      match TriggerTick(topic, allSpreads, draws[0].index, draws[0].trigger)
      case Failure(f) => Run([], Some(f))
      case Success(p) =>
        var rest := TriggerRun(topic, allSpreads, draws[1..]);
        Run([p] + rest.published, rest.crash)
  }

  /** Every draw of `randomBytes(6)` is six bytes long. */
  predicate SixByteDraws(byteDraws: seq<seq<byte>>) {
    forall t :: 0 <= t < |byteDraws| ==> |byteDraws[t]| == 6
  }

  /** The interval callback of an order-book worker, `ticks` times over the stored record. */
  function OrderbookTicks(topic: string, workerAsset: Option<string>, orderbook: OrderbookEvent, ticks: nat): (r: Run)
    ensures |r.published| <= ticks
    ensures r.crash.None? ==> |r.published| == ticks
  {
    if ticks == 0 then Run([], None)
    else
      match OrderbookTick(topic, workerAsset, orderbook)
      case Failure(f) => Run([], Some(f))
      case Success(p) =>
        var rest := OrderbookTicks(topic, workerAsset, orderbook, ticks - 1);
        Run([p] + rest.published, rest.crash)
  }

  /**
   * An order-book worker over `|byteDraws|` ticks, where `byteDraws[t]` is
   * what `randomBytes(6)` gives when drawn at tick `t`. The record is built
   * once, on `ready`, from the first draw, and the interval reuses it.
   */
  function OrderbookRun(topic: string, workerAsset: Option<string>, byteDraws: seq<seq<byte>>): Run
    requires SixByteDraws(byteDraws)
  {
    if |byteDraws| == 0 then Run([], None)
    else
      var randomOrderbook := GenerateFakeOrderbook(workerAsset, byteDraws[0]);
      OrderbookTicks(topic, workerAsset, randomOrderbook, |byteDraws|)
  }

  /**
   * The worker with index `workerId` over `|draws|` ticks, by its role;
   * tick `t` offers the trigger draw `draws[t]` and the byte draw `byteDraws[t]`.
   */
  function WorkerRun(config: Config, numCPUs: nat, workerId: nat, draws: seq<Draw>, byteDraws: seq<seq<byte>>): Run
    requires |byteDraws| == |draws| && SixByteDraws(byteDraws)
  {
    var letterArray := LetterArray(numCPUs);
    match RoleOf(letterArray, workerId)
    case ActiveStreams => TriggerRun(config.topicActive, AllSpreads(letterArray), draws)
    case OrderbookStream(asset) => OrderbookRun(config.topicOb, asset, byteDraws)
  }

  /** The draws `Math.floor(Math.random() * n)` can give: below `n`, or 0 when `n` is 0. */
  predicate FloorDraws(draws: seq<Draw>, n: nat) {
    forall t :: 0 <= t < |draws| ==> draws[t].index < n || draws[t].index == 0
  }

  /**
   * With every draw inside the universe, the trigger worker never crashes
   * and publishes exactly one message per tick: tick `t` keyed by
   * `allSpreads[draws[t].index]`, partition -1, on the given topic.
   */
  lemma {:induction false} TriggerRunPublishes(topic: string, allSpreads: seq<string>, draws: seq<Draw>)
    requires forall t :: 0 <= t < |draws| ==> draws[t].index < |allSpreads|
    ensures TriggerRun(topic, allSpreads, draws).crash == None
    ensures |TriggerRun(topic, allSpreads, draws).published| == |draws|
    ensures forall t :: 0 <= t < |draws| ==>
              TriggerRun(topic, allSpreads, draws).published[t] ==
              TriggerTick(topic, allSpreads, draws[t].index, draws[t].trigger).value
    ensures forall t :: 0 <= t < |draws| ==>
              && TriggerRun(topic, allSpreads, draws).published[t].topic == topic
              && TriggerRun(topic, allSpreads, draws).published[t].partition == AnyPartition
              && TriggerRun(topic, allSpreads, draws).published[t].key == allSpreads[draws[t].index]
    decreases |draws|
  {
    if |draws| > 0 {
      var rest := draws[1..];
      assert forall t :: 0 <= t < |rest| ==> rest[t] == draws[t + 1];
      TriggerRunPublishes(topic, allSpreads, rest);
      var r := TriggerRun(topic, allSpreads, draws);
      forall t | 0 <= t < |draws|
        ensures r.published[t] == TriggerTick(topic, allSpreads, draws[t].index, draws[t].trigger).value
      {
        if t > 0 {
          assert r.published[t] == TriggerRun(topic, allSpreads, rest).published[t - 1];
        }
      }
    }
  }

  /** A first draw outside the universe crashes the trigger worker before it publishes anything. */
  lemma TriggerRunCrashes(topic: string, allSpreads: seq<string>, draws: seq<Draw>)
    requires |draws| > 0 && draws[0].index >= |allSpreads|
    ensures TriggerRun(topic, allSpreads, draws) == Run([], Some(SplitOfUndefined))
  {
  }

  /**
   * An order-book worker with an asset never crashes and publishes the
   * one record built on `ready` on every tick, keyed by its asset,
   * partition -1; without an asset its first tick throws.
   */
  lemma OrderbookRunRepeats(topic: string, workerAsset: Option<string>, byteDraws: seq<seq<byte>>)
    requires SixByteDraws(byteDraws)
    ensures var r := OrderbookRun(topic, workerAsset, byteDraws);
      workerAsset.Some? ==>
        && r.crash == None && |r.published| == |byteDraws|
        && forall t :: 0 <= t < |byteDraws| ==>
             r.published[t] ==
             Produce(topic, AnyPartition, OrderbookJson(OrderbookEvent(workerAsset, OrderbookValue(byteDraws[0]))),
                     workerAsset.value)
    ensures workerAsset.None? && |byteDraws| > 0 ==>
              OrderbookRun(topic, workerAsset, byteDraws) == Run([], Some(KeyNotString))
  {
    if |byteDraws| > 0 {
      var orderbook := GenerateFakeOrderbook(workerAsset, byteDraws[0]);
      assert orderbook == OrderbookEvent(workerAsset, OrderbookValue(byteDraws[0]));
      OrderbookTicksRepeat(topic, workerAsset, orderbook, |byteDraws|);
    }
  }

  /** Every tick over a stored record publishes that record, unless the asset is undefined. */
  lemma {:induction false} OrderbookTicksRepeat(topic: string, workerAsset: Option<string>, orderbook: OrderbookEvent, ticks: nat)
    ensures var r := OrderbookTicks(topic, workerAsset, orderbook, ticks);
      workerAsset.Some? ==>
        && r.crash == None && |r.published| == ticks
        && forall t :: 0 <= t < ticks ==>
             r.published[t] == Produce(topic, AnyPartition, OrderbookJson(orderbook), workerAsset.value)
    ensures workerAsset.None? && ticks > 0 ==>
              OrderbookTicks(topic, workerAsset, orderbook, ticks) == Run([], Some(KeyNotString))
  {
    if ticks > 0 {
      OrderbookTicksRepeat(topic, workerAsset, orderbook, ticks - 1);
    }
  }

  /**
   * A trigger tick over the universe of a well-formed asset list publishes
   * to the given topic with partition -1, keyed by the event's own spread
   * `X_Y`, where `X` and `Y` are different letters of the list and are
   * the event's `asset_one` and `asset_two`.
   */
  lemma TriggerTickFromUniverse(topic: string, letters: seq<string>, randomIndex: nat, randomTrigger: bool)
    requires WellFormed(letters)
    requires randomIndex < |AllSpreads(letters)|
    ensures var r := TriggerTick(topic, AllSpreads(letters), randomIndex, randomTrigger);
      var e := GenerateRandomTrigger(AllSpreads(letters), randomIndex, randomTrigger).value;
      && r.Success? && r.value.topic == topic && r.value.partition == AnyPartition
      && r.value.message == TriggerJson(e)
      && r.value.key == e.spread
      && e.assetTwo.Some? && r.value.key == Spread(e.assetOne, e.assetTwo.value)
      && e.assetOne in letters && e.assetTwo.value in letters && e.assetOne != e.assetTwo.value
  {
    TriggerFromUniverse(letters, randomIndex, randomTrigger);
  }

  /**
   * With at least three CPUs, and draws in the range `Math.floor` gives,
   * worker 0 never crashes and publishes one message per tick to the
   * active topic, partition -1, keyed by the drawn spread.
   */
  lemma ActiveStreamsRun(config: Config, numCPUs: nat, draws: seq<Draw>, byteDraws: seq<seq<byte>>)
    requires numCPUs >= 3
    requires |byteDraws| == |draws| && SixByteDraws(byteDraws)
    requires FloorDraws(draws, |AllSpreads(LetterArray(numCPUs))|)
    ensures var run := WorkerRun(config, numCPUs, 0, draws, byteDraws);
      && run.crash == None && |run.published| == |draws|
      && forall t :: 0 <= t < |draws| ==>
           run.published[t].topic == config.topicActive &&
           run.published[t].partition == AnyPartition &&
           run.published[t].key == AllSpreads(LetterArray(numCPUs))[draws[t].index]
  {
    var letters := LetterArray(numCPUs);
    LetterArrayShape(numCPUs);
    AllSpreadsLength(letters);
    assert |letters| >= 2;
    MulMonotone(1, |letters|, |letters| - 1);
    TriggerRunPublishes(config.topicActive, AllSpreads(letters), draws);
  }

  /**
   * With one or two CPUs the universe is empty, the draw is 0, and worker
   * 0 crashes on its first tick without publishing.
   */
  lemma ActiveStreamsRunFaults(config: Config, numCPUs: nat, draws: seq<Draw>, byteDraws: seq<seq<byte>>)
    requires 1 <= numCPUs <= 2
    requires |byteDraws| == |draws| && SixByteDraws(byteDraws) && |draws| > 0
    ensures WorkerRun(config, numCPUs, 0, draws, byteDraws) == Run([], Some(SplitOfUndefined))
  {
    var letters := LetterArray(numCPUs);
    LetterArrayShape(numCPUs);
    AllSpreadsLength(letters);
    TriggerRunCrashes(config.topicActive, AllSpreads(letters), draws);
  }

  /**
   * Order-book worker `w` (1 <= w <= 26, started with the pool) never
   * crashes and sends the same message on every tick to the order-book
   * topic, partition -1, keyed by its letter, its value made from the
   * bytes drawn on `ready`.
   */
  lemma OrderbookWorkerRun(config: Config, numCPUs: nat, workerId: nat, draws: seq<Draw>, byteDraws: seq<seq<byte>>)
    requires 1 <= workerId < numCPUs && workerId <= 26
    requires |byteDraws| == |draws| && SixByteDraws(byteDraws)
    ensures var run := WorkerRun(config, numCPUs, workerId, draws, byteDraws);
      && run.crash == None && |run.published| == |draws|
      && forall t :: 0 <= t < |draws| ==>
           run.published[t].topic == config.topicOb &&
           run.published[t].partition == AnyPartition &&
           run.published[t].key == [('A' as int + workerId - 1) as char] &&
           run.published[t] == run.published[0] &&
           run.published[t].message == OrderbookJson(OrderbookEvent(Some(run.published[t].key), OrderbookValue(byteDraws[0])))
  {
    var letters := LetterArray(numCPUs);
    LetterArrayShape(numCPUs);
    OrderbookRunRepeats(config.topicOb, Some(letters[workerId - 1]), byteDraws);
  }

  /**
   * A replacement worker (index at least `numCPUs`) has no asset, so it
   * crashes on its first tick, on the undefined key.
   */
  lemma ReplacementWorkerRun(config: Config, numCPUs: nat, workerId: nat, draws: seq<Draw>, byteDraws: seq<seq<byte>>)
    requires 1 <= numCPUs <= workerId
    requires |byteDraws| == |draws| && SixByteDraws(byteDraws) && |draws| > 0
    ensures WorkerRun(config, numCPUs, workerId, draws, byteDraws) == Run([], Some(KeyNotString))
  {
    ReplacementWorkerRole(numCPUs, workerId);
    OrderbookRunRepeats(config.topicOb, None, byteDraws);
  }

  /**
   * Past 27 CPUs, the starting workers 27 to `numCPUs - 1` have no letter,
   * so each crashes on its first tick, on the undefined key.
   */
  lemma LetterlessWorkerRun(config: Config, numCPUs: nat, workerId: nat, draws: seq<Draw>, byteDraws: seq<seq<byte>>)
    requires 27 <= workerId < numCPUs
    requires |byteDraws| == |draws| && SixByteDraws(byteDraws) && |draws| > 0
    ensures WorkerRun(config, numCPUs, workerId, draws, byteDraws) == Run([], Some(KeyNotString))
  {
    PlanBeyondAlphabet(numCPUs);
    assert Plan(numCPUs)[workerId] == RoleOf(LetterArray(numCPUs), workerId);
    OrderbookRunRepeats(config.topicOb, None, byteDraws);
  }
}
