/** `ReadFromStream`: drains every shard of the stream from its oldest record,
    decodes and validates each payload, and hands the accepted records of each
    fetch to the raw-data storage. */
module Consumer {
  import opened Wrappers
  import opened Text
  import opened CivilTime
  import opened WebTransactions
  import opened ObjectStore
  import opened S3Storage
  import opened S3Writer
  import opened FileStorage

  // ------------------------------------------------------------ the source

  /** A GetRecords request: the shard iterator and the record limit. */
  datatype GetRecordsRequest = GetRecordsRequest(shardIterator: string, limit: int)

  /** A GetRecords response: each record's payload as text, and the
      continuation (`None` for null). */
  datatype GetRecordsResponse = GetRecordsResponse(records: seq<string>, nextShardIterator: Option<string>)

  /** One round trip to the stream. */
  datatype Fetch = Fetch(request: GetRecordsRequest, response: GetRecordsResponse)

  /** The stream as the consumer sees it: the shard ids DescribeStream lists,
      the TRIM_HORIZON iterator GetShardIterator hands out for a shard, and
      the answer to each GetRecords request. */
  datatype KinesisSource = KinesisSource(shardIds: seq<string>,
                                         trimHorizon: string -> Option<string>,
                                         getRecords: GetRecordsRequest -> GetRecordsResponse)

  /** The record limit of every GetRecords request. */
  const FetchLimit := 1000

  /** The loop condition: the iterator is neither null nor empty. */
  predicate HasIterator(it: Option<string>) {
    it.Some? && it.value != ""
  }

  /** The fetches made for one shard from iterator `it`: follow
      NextShardIterator while it is non-empty, for at most `budget` fetches. */
  function ShardFetches(src: KinesisSource, it: Option<string>, budget: nat): seq<Fetch>
    decreases budget
  {
    if budget == 0 || !HasIterator(it) then []
    else
      var request := GetRecordsRequest(it.value, FetchLimit);
      var response := src.getRecords(request);
      [Fetch(request, response)] + ShardFetches(src, response.nextShardIterator, budget - 1)
  }

  /** `ShardFetches` with the fetches made so far carried along, the form in
      which the loop makes them. */
  function ShardFetchesAfter(src: KinesisSource, it: Option<string>, budget: nat, done: seq<Fetch>): seq<Fetch>
    decreases budget
  {
    if budget == 0 || !HasIterator(it) then done
    else
      var request := GetRecordsRequest(it.value, FetchLimit);
      var response := src.getRecords(request);
      ShardFetchesAfter(src, response.nextShardIterator, budget - 1, done + [Fetch(request, response)])
  }

  /** Carrying the fetches made so far only puts them in front. */
  lemma {:induction false} ShardFetchesAfterIs(src: KinesisSource, it: Option<string>, budget: nat, done: seq<Fetch>)
    ensures ShardFetchesAfter(src, it, budget, done) == done + ShardFetches(src, it, budget)
    decreases budget
  {
    if budget == 0 || !HasIterator(it) {
      assert done + [] == done;
    } else {
      var request := GetRecordsRequest(it.value, FetchLimit);
      var response := src.getRecords(request);
      var f := Fetch(request, response);
      ShardFetchesAfterIs(src, response.nextShardIterator, budget - 1, done + [f]);
      assert (done + [f]) + ShardFetches(src, response.nextShardIterator, budget - 1)
        == done + ([f] + ShardFetches(src, response.nextShardIterator, budget - 1));
    }
  }

  /** The fetches for the shards in `shardIds`, shard after shard, each from TRIM_HORIZON. */
  function StreamFetches(src: KinesisSource, shardIds: seq<string>, budget: nat): seq<Fetch> {
    if shardIds == [] then []
    else
      StreamFetches(src, shardIds[..|shardIds| - 1], budget)
        + ShardFetches(src, src.trimHorizon(shardIds[|shardIds| - 1]), budget)
  }

  /** Every request asks for at most 1000 records, and each request of a
      shard continues from the response before it; each iterator used is
      non-empty. */
  lemma {:induction false} ShardFetchesChain(src: KinesisSource, it: Option<string>, budget: nat)
    ensures var fs := ShardFetches(src, it, budget);
      |fs| <= budget
      && (fs != [] ==> HasIterator(it) && fs[0].request.shardIterator == it.value)
      && (forall i :: 0 <= i < |fs| ==> fs[i].request.limit == FetchLimit && fs[i].request.shardIterator != ""
                                        && fs[i].response == src.getRecords(fs[i].request))
      && (forall i :: 0 <= i < |fs| - 1 ==>
            fs[i].response.nextShardIterator == Some(fs[i + 1].request.shardIterator))
      && (0 < |fs| < budget ==> !HasIterator(fs[|fs| - 1].response.nextShardIterator))
      && (fs == [] ==> budget == 0 || !HasIterator(it))
    decreases budget
  {
    if budget > 0 && HasIterator(it) {
      var response := src.getRecords(GetRecordsRequest(it.value, FetchLimit));
      ShardFetchesChain(src, response.nextShardIterator, budget - 1);
    }
  }

  /** Every request of the stream asks for at most 1000 records. */
  lemma {:induction false} StreamFetchLimits(src: KinesisSource, shardIds: seq<string>, budget: nat)
    ensures forall f :: f in StreamFetches(src, shardIds, budget) ==> f.request.limit == FetchLimit
    decreases |shardIds|
  {
    if shardIds != [] {
      StreamFetchLimits(src, shardIds[..|shardIds| - 1], budget);
      var it := src.trimHorizon(shardIds[|shardIds| - 1]);
      ShardFetchesChain(src, it, budget);
      var fs := ShardFetches(src, it, budget);
      assert forall f :: f in fs ==> f.request.limit == FetchLimit by {
        forall f | f in fs ensures f.request.limit == FetchLimit {
          var i :| 0 <= i < |fs| && fs[i] == f;
        }
      }
    }
  }

  // --------------------------------------------------- classifying payloads

  /** The JSON library: whether `JContainer.Parse` accepts a text, and what
      `DeserializeObject<WebTransaction>` yields (`None` when it throws). */
  datatype JsonCodec = JsonCodec(parses: string -> bool, deserialize: string -> Option<WebTransaction>)

  /** What becomes of one payload. */
  datatype Verdict =
    | Malformed                    // not JSON: "invalid json"
    | Undecodable                  // no WebTransaction, or Validate threw
    | Invalid(errors: seq<string>) // broken rules, logged
    | Accepted(record: WebTransaction)

  function Classify(json: string, codec: JsonCodec, net: UrlServices): Verdict {
    if !codec.parses(json) then Malformed
    else
      match codec.deserialize(json)
      case None => Undecodable
      case Some(wt) =>
        match Violations(wt, net)
        case None => Undecodable
        case Some(errors) => if errors == [] then Accepted(wt) else Invalid(errors)
  }

  /** A payload is accepted exactly when it parses, decodes, has a method and
      a URL, and passes all three rules. */
  lemma AcceptedIff(json: string, codec: JsonCodec, net: UrlServices, wt: WebTransaction)
    ensures Classify(json, codec, net) == Accepted(wt) <==>
      codec.parses(json) && codec.deserialize(json) == Some(wt)
      && wt.webMethod.Some? && wt.url.Some?
      && IsWebMethodValid(wt.webMethod.value)
      && IsResponseTimeValid(wt.responseTimeMs as int)
      && IsValidUrl(wt.url.value, net)
  {
    ValidIff(wt, net);
  }

  /** `judge` gives `Classify`'s verdict for every payload. The consumer's
      run is described with the verdict function as a value, so that a
      description of the whole run does not spell out the validation rules. */
  ghost predicate JudgesAs(judge: string -> Verdict, codec: JsonCodec, net: UrlServices) {
    forall json {:trigger Classify(json, codec, net)} :: judge(json) == Classify(json, codec, net)
  }

  /** `Classify` as a function value, one verdict per payload text. */
  function Judge(codec: JsonCodec, net: UrlServices): (judge: string -> Verdict)
    ensures JudgesAs(judge, codec, net)
  {
    json => Classify(json, codec, net)
  }

  /** The accepted records of a run of payloads, in arrival order. */
  function AcceptedBy(payloads: seq<string>, judge: string -> Verdict): seq<WebTransaction> {
    if payloads == [] then []
    else
      AcceptedBy(payloads[..|payloads| - 1], judge)
        + match judge(payloads[|payloads| - 1])
          case Accepted(wt) => [wt]
          case _ => []
  }

  /** Payloads are judged one by one: a rejected payload does not affect the
      others, and order is kept. */
  lemma {:induction false} AcceptedByAppend(a: seq<string>, b: seq<string>, judge: string -> Verdict)
    ensures AcceptedBy(a + b, judge) == AcceptedBy(a, judge) + AcceptedBy(b, judge)
    decreases |b|
  {
    if b == [] {
      assert a + b == a;
    } else {
      AcceptedByAppend(a, b[..|b| - 1], judge);
      assert (a + b)[..|a + b| - 1] == a + b[..|b| - 1];
    }
  }

  /** Every accepted record came from a payload judged `Accepted`. */
  lemma {:induction false} AcceptedBySound(payloads: seq<string>, judge: string -> Verdict, wt: WebTransaction)
    requires wt in AcceptedBy(payloads, judge)
    ensures exists i :: 0 <= i < |payloads| && judge(payloads[i]) == Accepted(wt)
    decreases |payloads|
  {
    var init := payloads[..|payloads| - 1];
    if wt in AcceptedBy(init, judge) {
      AcceptedBySound(init, judge, wt);
      var i :| 0 <= i < |init| && judge(init[i]) == Accepted(wt);
      assert init[i] == payloads[i];
    } else {
      assert judge(payloads[|payloads| - 1]) == Accepted(wt);
    }
  }

  /** Every payload judged `Accepted` has its record kept. */
  lemma {:induction false} AcceptedByComplete(payloads: seq<string>, judge: string -> Verdict, i: nat)
    requires i < |payloads| && judge(payloads[i]).Accepted?
    ensures judge(payloads[i]).record in AcceptedBy(payloads, judge)
    decreases |payloads|
  {
    var init := payloads[..|payloads| - 1];
    var wt := judge(payloads[i]).record;
    if i < |init| {
      assert init[i] == payloads[i];
      AcceptedByComplete(init, judge, i);
      assert wt in AcceptedBy(init, judge);
    } else {
      assert AcceptedBy(payloads, judge) == AcceptedBy(init, judge) + [wt];
    }
  }

  /** No more records are accepted than payloads arrive. */
  lemma {:induction false} AcceptedByLength(payloads: seq<string>, judge: string -> Verdict)
    ensures |AcceptedBy(payloads, judge)| <= |payloads|
    decreases |payloads|
  {
    if payloads != [] {
      AcceptedByLength(payloads[..|payloads| - 1], judge);
    }
  }

  /** Every record handed on to storage was decoded from one of the payloads
      and keeps all three validation rules: it has a permitted method, a
      response time in range and a URL that resolves. */
  lemma AcceptedAreValid(payloads: seq<string>, codec: JsonCodec, net: UrlServices,
                         judge: string -> Verdict, wt: WebTransaction)
    requires JudgesAs(judge, codec, net)
    requires wt in AcceptedBy(payloads, judge)
    ensures exists i :: 0 <= i < |payloads| && Classify(payloads[i], codec, net) == Accepted(wt)
    ensures exists i :: 0 <= i < |payloads| && codec.parses(payloads[i]) && codec.deserialize(payloads[i]) == Some(wt)
    ensures wt.webMethod.Some? && IsWebMethodValid(wt.webMethod.value)
    ensures IsResponseTimeValid(wt.responseTimeMs as int)
    ensures wt.url.Some? && IsValidUrl(wt.url.value, net)
  {
    AcceptedBySound(payloads, judge, wt);
    var i :| 0 <= i < |payloads| && judge(payloads[i]) == Accepted(wt);
    assert Classify(payloads[i], codec, net) == Accepted(wt);
    AcceptedIff(payloads[i], codec, net, wt);
  }

  /** The inner `foreach` over one fetch's records: each payload is parsed,
      decoded and validated, and the accepted ones are collected in order. */
  method CollectAccepted(payloads: seq<string>, codec: JsonCodec, net: UrlServices, ghost judge: string -> Verdict)
    returns (accepted: seq<WebTransaction>)
    requires JudgesAs(judge, codec, net)
    ensures accepted == AcceptedBy(payloads, judge)
  {
    accepted := [];
    for i := 0 to |payloads|
      invariant accepted == AcceptedBy(payloads[..i], judge)
    {
      var json := payloads[i];
      assert payloads[..i + 1][..i] == payloads[..i];
      assert judge(json) == Classify(json, codec, net);
      if codec.parses(json) {
        var decoded := codec.deserialize(json);
        if decoded.Some? {
          var validationErrors := Validate(decoded.value, net);
          if validationErrors.Some? && validationErrors.value == [] {
            accepted := accepted + [decoded.value];
          }
        }
      }
    }
    assert payloads[..|payloads|] == payloads;
  }

  // ------------------------------------------------------------ batches

  /** The batch a fetch hands to storage: its accepted records, when there are any. */
  function BatchOf(f: Fetch, judge: string -> Verdict): seq<seq<WebTransaction>> {
    if |f.response.records| > 0 && AcceptedBy(f.response.records, judge) != [] then
      [AcceptedBy(f.response.records, judge)]
    else []
  }

  /** `f` applied to each element, the results concatenated in order. */
  function ConcatMap<A, B>(xs: seq<A>, f: A -> seq<B>): seq<B> {
    if xs == [] then [] else ConcatMap(xs[..|xs| - 1], f) + f(xs[|xs| - 1])
  }

  lemma {:induction false} ConcatMapAppend<A, B>(a: seq<A>, b: seq<A>, f: A -> seq<B>)
    ensures ConcatMap(a + b, f) == ConcatMap(a, f) + ConcatMap(b, f)
    decreases |b|
  {
    if b == [] {
      assert a + b == a;
    } else {
      var init, last := b[..|b| - 1], b[|b| - 1];
      ConcatMapAppend(a, init, f);
      assert (a + b)[..|a + b| - 1] == a + init;
      assert (a + b)[|a + b| - 1] == last;
      assert ConcatMap(a + b, f) == ConcatMap(a + init, f) + f(last);
      assert (ConcatMap(a, f) + ConcatMap(init, f)) + f(last) == ConcatMap(a, f) + (ConcatMap(init, f) + f(last));
    }
  }

  /** The batches saved for a run of fetches, in order. */
  function Batches(fetches: seq<Fetch>, judge: string -> Verdict): seq<seq<WebTransaction>> {
    ConcatMap(fetches, (f: Fetch) => BatchOf(f, judge))
  }

  /** All payloads of a run of fetches, in order. */
  function Payloads(fetches: seq<Fetch>): seq<string> {
    ConcatMap(fetches, (f: Fetch) => f.response.records)
  }

  /** The records of the batches, batch after batch. */
  function Flatten(batches: seq<seq<WebTransaction>>): seq<WebTransaction> {
    ConcatMap(batches, (batch: seq<WebTransaction>) => batch)
  }

  /** Storage sees every accepted record exactly once, in arrival order;
      every batch is non-empty, and there is at most one per fetch. */
  lemma {:induction false} BatchesSpec(fetches: seq<Fetch>, judge: string -> Verdict)
    ensures Flatten(Batches(fetches, judge)) == AcceptedBy(Payloads(fetches), judge)
    ensures forall i :: 0 <= i < |Batches(fetches, judge)| ==> Batches(fetches, judge)[i] != []
    ensures |Batches(fetches, judge)| <= |fetches|
    decreases |fetches|
  {
    if fetches != [] {
      var init := fetches[..|fetches| - 1];
      var last := fetches[|fetches| - 1];
      BatchesSpec(init, judge);
      ConcatMapAppend(Batches(init, judge), BatchOf(last, judge), (batch: seq<WebTransaction>) => batch);
      AcceptedByAppend(Payloads(init), last.response.records, judge);
      if BatchOf(last, judge) != [] {
        assert Flatten(BatchOf(last, judge)) == AcceptedBy(last.response.records, judge) by {
          assert BatchOf(last, judge)[..0] == [];
        }
      } else if |last.response.records| == 0 {
        assert last.response.records == [];
      }
    }
  }

  /** Fetches contribute their batches independently and in order. */
  lemma BatchesAppend(a: seq<Fetch>, b: seq<Fetch>, judge: string -> Verdict)
    ensures Batches(a + b, judge) == Batches(a, judge) + Batches(b, judge)
  {
    ConcatMapAppend(a, b, (f: Fetch) => BatchOf(f, judge));
  }

  // ------------------------------------------------------------ storage

  /** `IRawDataStorage`: one of the two implementations. */
  datatype RawDataStorage = S3Backend(s3: AmazonS3DataStorage) | FileBackend(file: FileBasedDataStorage)

  /** The objects a `Save` may change. */
  function Footprint(storage: RawDataStorage): set<object> {
    match storage
    case S3Backend(s) => {s.client}
    case FileBackend(f) => {f.fs}
  }

  /** `save` is `SaveSpec` with the settings of the storage `s` fixed. */
  ghost predicate SavesAs(save: (StoreState, seq<WebTransaction>) -> StoreState, s: AmazonS3DataStorage) {
    forall st, records {:trigger SaveSpec(st, s.client.fails, s.topBucketName, records, s.showDate)} ::
      save(st, records) == SaveSpec(st, s.client.fails, s.topBucketName, records, s.showDate)
  }

  /** One S3 save as a function value, known only by `SavesAs`, so that a proof
      about a run of saves does not expand every one of them. */
  ghost function Saver(s: AmazonS3DataStorage): (save: (StoreState, seq<WebTransaction>) -> StoreState)
    ensures SavesAs(save, s)
  {
    var spec := (st: StoreState, records: seq<WebTransaction>) =>
      SaveSpec(st, s.client.fails, s.topBucketName, records, s.showDate);
    assert SavesAs(spec, s);
    var save :| SavesAs(save, s);
    save
  }

  /** The state after `step` with each of `xs` in order, starting from `st`. */
  function FoldLeft<S, X>(st: S, step: (S, X) -> S, xs: seq<X>): S {
    if xs == [] then st else step(FoldLeft(st, step, xs[..|xs| - 1]), xs[|xs| - 1])
  }

  /** Folding over `a + b` is folding over `b` from where `a` left off. */
  lemma {:induction false} FoldLeftAppend<S, X>(st: S, step: (S, X) -> S, a: seq<X>, b: seq<X>)
    ensures FoldLeft(st, step, a + b) == FoldLeft(FoldLeft(st, step, a), step, b)
    decreases |b|
  {
    if b == [] {
      assert a + b == a;
    } else {
      FoldLeftAppend(st, step, a, b[..|b| - 1]);
      assert (a + b)[..|a + b| - 1] == a + b[..|b| - 1];
    }
  }

  lemma FoldLeftOne<S, X>(st: S, step: (S, X) -> S, x: X)
    ensures FoldLeft(st, step, [x]) == step(st, x)
  {
    assert [x][..0] == [];
  }

  /** The store after S3 saves of `batches` in order. */
  ghost function S3AfterBatches(st: StoreState, s: AmazonS3DataStorage, batches: seq<seq<WebTransaction>>): StoreState {
    FoldLeft(st, Saver(s), batches)
  }

  /** One file save: the batch's text appended to the file, or nothing when
      a date in the batch is unreadable. */
  function FileSaver(f: FileBasedDataStorage): (FileState, seq<WebTransaction>) -> FileState {
    (before: FileState, batch: seq<WebTransaction>) => FileSaveSpec(before, f.fs.fails, f.fileName, batch, f.showDate)
  }

  /** The files after file saves of `batches` in order. */
  function FilesAfterBatches(files: FileState, f: FileBasedDataStorage,
                             batches: seq<seq<WebTransaction>>): FileState {
    FoldLeft(files, FileSaver(f), batches)
  }

  /** The object store behind the storage (empty for the file backend). */
  function StoreOf(storage: RawDataStorage): StoreState
    reads Footprint(storage)
  {
    if storage.S3Backend? then storage.s3.client.State() else StoreState(map[], [])
  }

  /** The files behind the storage (none for the S3 backend). */
  function FilesOf(storage: RawDataStorage): FileState
    reads Footprint(storage)
  {
    if storage.FileBackend? then storage.file.fs.State() else FileState(map[], 0)
  }

  /** The storage holds what saving `batches` in order makes of the store
      `s3` (S3 backend) or the files `files` (file backend). */
  ghost predicate SavedAll(storage: RawDataStorage, s3: StoreState, files: FileState,
                     batches: seq<seq<WebTransaction>>)
    reads Footprint(storage)
  {
    match storage
    case S3Backend(s) => s.client.State() == S3AfterBatches(s3, s, batches)
    case FileBackend(f) => f.fs.State() == FilesAfterBatches(files, f, batches)
  }

  /** Saving `b` on top of the state `a` left is saving `a + b`. */
  lemma SavedAllAppend(storage: RawDataStorage, s3: StoreState, files: FileState,
                       a: seq<seq<WebTransaction>>, b: seq<seq<WebTransaction>>,
                       mid3: StoreState, midFiles: FileState)
    requires storage.S3Backend? ==> mid3 == S3AfterBatches(s3, storage.s3, a)
    requires storage.FileBackend? ==> midFiles == FilesAfterBatches(files, storage.file, a)
    requires SavedAll(storage, mid3, midFiles, b)
    ensures SavedAll(storage, s3, files, a + b)
  {
    if storage.S3Backend? {
      FoldLeftAppend(s3, Saver(storage.s3), a, b);
    } else {
      FoldLeftAppend(files, FileSaver(storage.file), a, b);
    }
  }

  /** `rawDataStorage.Save(records)`, its failure caught and logged. */
  method SaveTo(storage: RawDataStorage, records: seq<WebTransaction>)
    modifies Footprint(storage)
    ensures SavedAll(storage, old(StoreOf(storage)), old(FilesOf(storage)), [records])
  {
    match storage
    case S3Backend(s) =>
      ghost var before := s.client.State();
      var _ := s.Save(records);
      FoldLeftOne(before, Saver(s), records);
    case FileBackend(f) =>
      ghost var before := f.fs.State();
      var _ := f.Save(records);
      FoldLeftOne(before, FileSaver(f), records);
  }

  // ------------------------------------------------------------ the drain loop

  /** The body of `if (records.Count > 0)`: collect the accepted records of
      one response and, when there are any, save them. */
  method ProcessFetch(f: Fetch, codec: JsonCodec, net: UrlServices, ghost judge: string -> Verdict,
                      storage: RawDataStorage)
    requires JudgesAs(judge, codec, net)
    modifies Footprint(storage)
    ensures SavedAll(storage, old(StoreOf(storage)), old(FilesOf(storage)), BatchOf(f, judge))
  {
    var records := f.response.records;
    if |records| > 0 {
      var newWebTransactions := CollectAccepted(records, codec, net, judge);
      if newWebTransactions != [] {
        SaveTo(storage, newWebTransactions);
        return;
      }
    }
    assert BatchOf(f, judge) == [];
  }

  /** One iteration's work in terms of the whole run: the fetch's batch is
      appended to the batches saved so far. */
  method SaveFetch(f: Fetch, codec: JsonCodec, net: UrlServices, ghost judge: string -> Verdict,
                   storage: RawDataStorage, ghost s3: StoreState, ghost files: FileState,
                   ghost fetches: seq<Fetch>)
    requires JudgesAs(judge, codec, net)
    requires SavedAll(storage, s3, files, Batches(fetches, judge))
    modifies Footprint(storage)
    ensures SavedAll(storage, s3, files, Batches(fetches + [f], judge))
  {
    ghost var mid3 := StoreOf(storage);
    ghost var midFiles := FilesOf(storage);
    ProcessFetch(f, codec, net, judge, storage);
    BatchesAppend(fetches, [f], judge);
    assert Batches([f], judge) == BatchOf(f, judge) by {
      assert [f][..0] == [];
    }
    SavedAllAppend(storage, s3, files, Batches(fetches, judge), BatchOf(f, judge), mid3, midFiles);
  }

  /** One pass of the `while` loop: GetRecords at the current iterator with
      limit 1000, then the records' processing, in terms of the whole shard. */
  method FetchAndSave(src: KinesisSource, iteratorId: Option<string>, left: nat, codec: JsonCodec,
                      net: UrlServices, ghost judge: string -> Verdict, storage: RawDataStorage,
                      ghost s3: StoreState, ghost files: FileState, ghost fetches: seq<Fetch>)
    returns (f: Fetch)
    requires left > 0 && HasIterator(iteratorId)
    requires JudgesAs(judge, codec, net)
    requires SavedAll(storage, s3, files, Batches(fetches, judge))
    modifies Footprint(storage)
    ensures f.request == GetRecordsRequest(iteratorId.value, FetchLimit) && f.response == src.getRecords(f.request)
    ensures ShardFetchesAfter(src, iteratorId, left, fetches)
      == ShardFetchesAfter(src, f.response.nextShardIterator, left - 1, fetches + [f])
    ensures SavedAll(storage, s3, files, Batches(fetches + [f], judge))
  {
    var request := GetRecordsRequest(iteratorId.value, FetchLimit);
    var response := src.getRecords(request);
    f := Fetch(request, response);
    SaveFetch(f, codec, net, judge, storage, s3, files, fetches);
  }

  /** The `while` loop for one shard: fetch up to 1000 records at the current
      iterator, save the accepted ones, and continue at NextShardIterator until
      it is null or empty (or the budget of fetches is spent). */
  method DrainShard(src: KinesisSource, start: Option<string>, budget: nat, codec: JsonCodec, net: UrlServices,
                    ghost judge: string -> Verdict, storage: RawDataStorage)
    returns (fetches: seq<Fetch>)
    requires JudgesAs(judge, codec, net)
    modifies Footprint(storage)
    ensures fetches == ShardFetchesAfter(src, start, budget, [])
    ensures SavedAll(storage, old(StoreOf(storage)), old(FilesOf(storage)), Batches(fetches, judge))
  {
    ghost var s3 := StoreOf(storage);
    ghost var files := FilesOf(storage);
    fetches := [];
    var iteratorId := start;
    var left := budget;
    while left > 0 && HasIterator(iteratorId)
      invariant ShardFetchesAfter(src, iteratorId, left, fetches) == ShardFetchesAfter(src, start, budget, [])
      invariant SavedAll(storage, s3, files, Batches(fetches, judge))
      decreases left
    {
      var f := FetchAndSave(src, iteratorId, left, codec, net, judge, storage, s3, files, fetches);
      fetches := fetches + [f];
      iteratorId := f.response.nextShardIterator;
      left := left - 1;
    }
  }

  /** The body of the `foreach` over shards: drain one shard from its
      TRIM_HORIZON iterator, in terms of the whole run. */
  method ReadShard(src: KinesisSource, shardId: string, budget: nat, codec: JsonCodec, net: UrlServices,
                   ghost judge: string -> Verdict, storage: RawDataStorage,
                   ghost s3: StoreState, ghost files: FileState, ghost done: seq<Fetch>)
    returns (shardFetches: seq<Fetch>)
    requires JudgesAs(judge, codec, net)
    requires SavedAll(storage, s3, files, Batches(done, judge))
    modifies Footprint(storage)
    ensures shardFetches == ShardFetches(src, src.trimHorizon(shardId), budget)
    ensures SavedAll(storage, s3, files, Batches(done + shardFetches, judge))
  {
    var iteratorId := src.trimHorizon(shardId);
    ghost var mid3 := StoreOf(storage);
    ghost var midFiles := FilesOf(storage);
    shardFetches := DrainShard(src, iteratorId, budget, codec, net, judge, storage);
    ShardFetchesAfterIs(src, iteratorId, budget, []);
    assert [] + ShardFetches(src, iteratorId, budget) == ShardFetches(src, iteratorId, budget);
    BatchesAppend(done, shardFetches, judge);
    SavedAllAppend(storage, s3, files, Batches(done, judge), Batches(shardFetches, judge), mid3, midFiles);
  }

  lemma StreamFetchesStep(src: KinesisSource, shardIds: seq<string>, i: nat, budget: nat)
    requires i < |shardIds|
    ensures StreamFetches(src, shardIds[..i + 1], budget)
      == StreamFetches(src, shardIds[..i], budget) + ShardFetches(src, src.trimHorizon(shardIds[i]), budget)
  {
    assert shardIds[..i + 1][..i] == shardIds[..i];
  }

  /** `ReadFromStream`: every shard in turn, each from TRIM_HORIZON. */
  method ReadFromStream(src: KinesisSource, budget: nat, codec: JsonCodec, net: UrlServices,
                        ghost judge: string -> Verdict, storage: RawDataStorage)
    returns (fetches: seq<Fetch>)
    requires JudgesAs(judge, codec, net)
    modifies Footprint(storage)
    ensures fetches == StreamFetches(src, src.shardIds, budget)
    ensures SavedAll(storage, old(StoreOf(storage)), old(FilesOf(storage)), Batches(fetches, judge))
  {
    ghost var s3 := StoreOf(storage);
    ghost var files := FilesOf(storage);
    fetches := [];
    for i := 0 to |src.shardIds|
      invariant fetches == StreamFetches(src, src.shardIds[..i], budget)
      invariant SavedAll(storage, s3, files, Batches(fetches, judge))
    {
      var shardFetches := ReadShard(src, src.shardIds[i], budget, codec, net, judge, storage, s3, files, fetches);
      StreamFetchesStep(src, src.shardIds, i, budget);
      fetches := fetches + shardFetches;
    }
    assert src.shardIds[..|src.shardIds|] == src.shardIds;
  }
}
