/**
 * The per-row loop of main.py: embed one row, then write its vector, its image
 * and its metadata, in that order, all keyed by the one content hash the
 * inference service returned.
 *
 * The three stores persist across rows while a fresh manager is built for every
 * row, as the script does. Everything remote is an oracle answer in a `RowEnv`
 * per row. An exception the managers do not catch ends the script: the run
 * stops and the rows after it are never processed.
 */
module Pipeline {
  import opened Common
  import RedisDb
  import S3
  import DynamoDb

  /** One input row: the image URL column, the title column and the ASIN. */
  datatype Row = Row(imageUrl: string, title: string, asin: string)

  datatype EmbeddingResult = EmbeddingResult(embedding: RedisDb.Embedding, imageHash: string)

  /** What `embed_api` gave back: the `results` list, or a raised error. */
  datatype EmbedReply = EmbedResults(results: seq<EmbeddingResult>) | EmbedFailed

  /** The remote answers for one row. */
  datatype RowEnv = RowEnv(
    embed: EmbedReply,
    redisReachable: bool,
    redisCreateFails: bool,
    redisRaisesAt: Option<nat>,
    s3: S3.Transport,
    dynamo: DynamoDb.Reply)

  /** The contents of the three stores. */
  datatype Stores = Stores(
    vectors: map<string, RedisDb.VectorEntry>,
    indexes: map<string, RedisDb.IndexSchema>,
    objects: map<string, S3.Bytes>,
    items: map<string, DynamoDb.ProductMetaData>)

  /** The stores after some rows, and whether an exception has ended the run. */
  datatype Step = Step(stores: Stores, stopped: bool)

  /** The rows the loop visits: all but the last (none for an empty file, where
      dropping the last row raises). */
  function RowsToProcess(data: seq<Row>): (rows: seq<Row>)
    ensures |data| > 0 ==> |rows| == |data| - 1
    ensures |data| == 0 ==> rows == []
    ensures rows <= data
  {
    if |data| == 0 then [] else data[..|data| - 1]
  }

  /** The embedding call returned at least one result. */
  predicate HasHash(e: RowEnv)
  {
    e.embed.EmbedResults? && |e.embed.results| > 0
  }

  /** The content hash of `results[0]`, the key of all three writes. */
  function RowHash(e: RowEnv): string
    requires HasHash(e)
  {
    e.embed.results[0].imageHash
  }

  /** The same remote answers for every item of a one-item blob batch. */
  function Repeat(t: S3.Transport): nat -> S3.Transport
  {
    (_: nat) => t
  }

  /** `ProductMetaData(...)`: a `None` URL fails validation of the `str` field. */
  function MakeMetadata(asin: string, h: string, s3Url: Option<string>, imageTitle: string)
    : (r: Option<DynamoDb.ProductMetaData>)
    ensures r.Some? <==> s3Url.Some?
    ensures r.Some? ==> r.value.hash == h && r.value.s3Url == s3Url.value
  {
    match s3Url
    case None => None
    case Some(url) => Some(DynamoDb.ProductMetaData(asin, h, url, imageTitle))
  }

  /** One iteration of the loop. The metadata's `image_title` is the row's image
      URL column and its `s3_url` is element 0 of the blob batch's result. The
      row stops the run when the embedding call fails, the configuration is
      invalid, the blob batch raises, the URL is `None`, or `put_item` raises
      something other than a `ClientError`. */
  function ProcessRow(s: Stores, section: RedisDb.RawRedisSection, bucket: string, row: Row, e: RowEnv)
    : (r: Step)
    ensures !HasHash(e) || RedisDb.ValidateConfig(section).Failure? ==> r == Step(s, true)
    ensures r.stopped ==> r.stores.items == s.items
  {
    if !HasHash(e) then Step(s, true)
    else
      var result := e.embed.results[0];
      var h := result.imageHash;
      match RedisDb.ValidateConfig(section)
      case Failure(_) => Step(s, true)
      case Success(cfg) =>
        var indexes := RedisDb.ProvisionIndex(s.indexes, cfg, e.redisReachable, e.redisCreateFails);
        var vectors := RedisDb.Upsert(s.vectors, cfg.hashPrefix, [h], [result.embedding], RedisDb.DefaultTag,
                                      RedisDb.Attempted(1, e.redisReachable, e.redisRaisesAt));
        var upload := S3.UploadAll(s.objects, bucket, [h], Repeat(e.s3), 1);
        if upload.raised then Step(Stores(vectors, indexes, upload.objects, s.items), true)
        else
          match MakeMetadata(row.asin, h, upload.urls[0], row.imageUrl)
          case None => Step(Stores(vectors, indexes, upload.objects, s.items), true)
          case Some(m) =>
            Step(Stores(vectors, indexes, upload.objects, DynamoDb.PutItem(s.items, m, e.dynamo)), e.dynamo.Raised?)
  }

  /** The effect of one row on the stores, as the run folds it over the rows. */
  type RowStep = (Stores, Row, RowEnv) -> Step

  /** main.py's loop body for a given `[redis]` section and bucket. */
  function RowStepOf(section: RedisDb.RawRedisSection, bucket: string): RowStep
  {
    (st: Stores, row: Row, e: RowEnv) => ProcessRow(st, section, bucket, row, e)
  }

  /** The run after the first `k` rows, `env(i)` answering for row `i`; a row
      that stops the run leaves every later row unprocessed. */
  function Run(s: Stores, step: RowStep, rows: seq<Row>, env: nat -> RowEnv, k: nat): Step
    requires k <= |rows|
    decreases k
  {
    if k == 0 then Step(s, false)
    else
      var prev := Run(s, step, rows, env, k - 1);
      if prev.stopped then prev else step(prev.stores, rows[k - 1], env(k - 1))
  }

  // ---------------------------------------------------------------------------
  // One row
  // ---------------------------------------------------------------------------

  /** A one-item blob batch is one `BatchItem`. */
  lemma UploadOne(objects: map<string, S3.Bytes>, bucket: string, h: string, t: S3.Transport)
    ensures var item := S3.BatchItem(objects, bucket, h, t);
            S3.UploadAll(objects, bucket, [h], Repeat(t), 1)
            == if item.raised then S3.Batch([], [], objects, true)
               else S3.Batch([item.url], [item.fetched], item.objects, false)
  {
    assert Repeat(t)(0) == t;
  }

  /** A row writes only under its own content hash: the vector key `prefix + h`,
      the object key `h + ".jpg"` and the item key `h`; existing vectors are kept. */
  lemma RowTouchesOnlyItsHash(s: Stores, section: RedisDb.RawRedisSection, bucket: string, row: Row, e: RowEnv)
    requires HasHash(e) && RedisDb.ValidateConfig(section).Success?
    ensures var r := ProcessRow(s, section, bucket, row, e);
            var prefix := RedisDb.ValidateConfig(section).value.hashPrefix;
            && OnlyChangedAt(s.vectors, r.stores.vectors, RedisDb.KeyOf(prefix, RowHash(e)))
            && (forall key :: key in s.vectors ==> key in r.stores.vectors && r.stores.vectors[key] == s.vectors[key])
            && OnlyChangedAt(s.objects, r.stores.objects, S3.ObjectKey(RowHash(e)))
            && OnlyChangedAt(s.items, r.stores.items, RowHash(e))
  {
    var r := ProcessRow(s, section, bucket, row, e);
    var cfg := RedisDb.ValidateConfig(section).value;
    var h := RowHash(e);
    var result := e.embed.results[0];
    var k := RedisDb.Attempted(1, e.redisReachable, e.redisRaisesAt);
    RedisDb.UpsertKeepsAndCovers(s.vectors, cfg.hashPrefix, [h], [result.embedding], RedisDb.DefaultTag, k);
    RedisDb.UpsertOnlyBatchKeys(s.vectors, cfg.hashPrefix, [h], [result.embedding], RedisDb.DefaultTag, k);
    S3.UploadAllFrame(s.objects, bucket, [h], Repeat(e.s3), 1);
    S3.UploadAllPrefix(s.objects, bucket, [h], Repeat(e.s3), 0, 1);
  }

  /** A row that completes has its image in the bucket and, unless the put
      failed, an item under its hash holding the row's ASIN, the canonical URL of
      the image and the row's image-URL column as title. */
  lemma RowCompletedJoinsStores(s: Stores, section: RedisDb.RawRedisSection, bucket: string, row: Row, e: RowEnv)
    requires !ProcessRow(s, section, bucket, row, e).stopped
    ensures HasHash(e) && RedisDb.ValidateConfig(section).Success?
    ensures var r := ProcessRow(s, section, bucket, row, e);
            && S3.ObjectKey(RowHash(e)) in r.stores.objects
            && !e.dynamo.Raised?
            && (e.dynamo.ClientError? ==> r.stores.items == s.items)
            && (e.dynamo.Done? ==>
                  RowHash(e) in r.stores.items
                  && r.stores.items[RowHash(e)]
                     == DynamoDb.ProductMetaData(row.asin, RowHash(e), S3.ObjectUrl(bucket, RowHash(e)), row.imageUrl))
  {
    var h := RowHash(e);
    S3.UploadAllUrls(s.objects, bucket, [h], Repeat(e.s3), 1, 0);
  }

  /** A row keeps its vector write whether or not a later step stops it: once
      Redis was reachable and did not raise at the row's only item, the key is
      in the keyspace, holding the row's embedding if the key was new. */
  lemma RowKeepsVectorWrite(s: Stores, section: RedisDb.RawRedisSection, bucket: string, row: Row, e: RowEnv)
    requires HasHash(e) && RedisDb.ValidateConfig(section).Success?
    requires e.redisReachable && e.redisRaisesAt != Some(0)
    ensures var r := ProcessRow(s, section, bucket, row, e);
            var key := RedisDb.KeyOf(RedisDb.ValidateConfig(section).value.hashPrefix, RowHash(e));
            && key in r.stores.vectors
            && (key !in s.vectors ==>
                  r.stores.vectors[key]
                  == RedisDb.VectorEntry(RedisDb.DefaultTag, RedisDb.Float16Bytes(e.embed.results[0].embedding)))
  {
    var prefix := RedisDb.ValidateConfig(section).value.hashPrefix;
    var h := RowHash(e);
    var embedding := e.embed.results[0].embedding;
    assert RedisDb.Attempted(1, e.redisReachable, e.redisRaisesAt) == 1;
    RedisDb.UpsertKeepsAndCovers(s.vectors, prefix, [h], [embedding], RedisDb.DefaultTag, 1);
    if RedisDb.KeyOf(prefix, h) !in s.vectors {
      RedisDb.UpsertWritesNewKey(s.vectors, prefix, [h], [embedding], RedisDb.DefaultTag, 0);
    }
  }

  /** A row keeps its index provisioning and its image upload whether or not a
      later step stops it. */
  lemma RowKeepsIndexAndImage(s: Stores, section: RedisDb.RawRedisSection, bucket: string, row: Row, e: RowEnv)
    requires HasHash(e) && RedisDb.ValidateConfig(section).Success?
    ensures var r := ProcessRow(s, section, bucket, row, e);
            && (e.redisReachable && !e.redisCreateFails ==> RedisDb.ValidateConfig(section).value.index in r.stores.indexes)
            && (S3.BatchItem(s.objects, bucket, RowHash(e), e.s3).url.Some? ==>
                  S3.ObjectKey(RowHash(e)) in r.stores.objects)
  {
    UploadOne(s.objects, bucket, RowHash(e), e.s3);
  }

  /** Exactly when a row stops the run: the embedding call fails, the
      configuration is invalid, the blob item raises or gives no URL (the
      metadata then fails validation), or `put_item` raises. */
  lemma RowStopsExactly(s: Stores, section: RedisDb.RawRedisSection, bucket: string, row: Row, e: RowEnv)
    ensures ProcessRow(s, section, bucket, row, e).stopped <==>
      !HasHash(e) || RedisDb.ValidateConfig(section).Failure?
      || S3.BatchItem(s.objects, bucket, RowHash(e), e.s3).raised
      || S3.BatchItem(s.objects, bucket, RowHash(e), e.s3).url.None?
      || e.dynamo.Raised?
  {
    if HasHash(e) && RedisDb.ValidateConfig(section).Success? {
      UploadOne(s.objects, bucket, RowHash(e), e.s3);
    }
  }

  /** Processing the same row twice with the same remote answers leaves the
      stores as processing it once: the vector and the image are not written
      again, and the metadata item is overwritten with itself. */
  lemma RowIdempotent(s: Stores, section: RedisDb.RawRedisSection, bucket: string, row: Row, e: RowEnv)
    ensures var once := ProcessRow(s, section, bucket, row, e);
            ProcessRow(once.stores, section, bucket, row, e) == once
  {
    var once := ProcessRow(s, section, bucket, row, e);
    if HasHash(e) && RedisDb.ValidateConfig(section).Success? {
      var cfg := RedisDb.ValidateConfig(section).value;
      var result := e.embed.results[0];
      var h := result.imageHash;
      var k := RedisDb.Attempted(1, e.redisReachable, e.redisRaisesAt);
      RedisDb.ProvisionIndexIdempotent(s.indexes, cfg, e.redisReachable, e.redisCreateFails);
      RedisDb.UpsertIdempotent(s.vectors, cfg.hashPrefix, [h], [result.embedding], RedisDb.DefaultTag, k);
      UploadOne(s.objects, bucket, h, e.s3);
      var first := S3.BatchItem(s.objects, bucket, h, e.s3);
      UploadOne(first.objects, bucket, h, e.s3);
      S3.BatchItemIdempotent(s.objects, bucket, h, e.s3, e.s3);
    }
  }

  // ---------------------------------------------------------------------------
  // The whole run
  // ---------------------------------------------------------------------------

  /** Once an exception has ended the run, no later row changes anything. */
  lemma {:induction false} RunStoppedStays(s: Stores, step: RowStep, rows: seq<Row>, env: nat -> RowEnv,
                                           j: nat, k: nat)
    requires j <= k <= |rows|
    requires Run(s, step, rows, env, j).stopped
    ensures Run(s, step, rows, env, k) == Run(s, step, rows, env, j)
    decreases k
  {
    if j < k {
      RunStoppedStays(s, step, rows, env, j, k - 1);
    }
  }

  /** The first `k` steps depend only on the first `k` rows and their answers. */
  lemma {:induction false} RunDependsOnPrefix(s: Stores, step: RowStep, rows: seq<Row>, rows': seq<Row>,
                                              env: nat -> RowEnv, env': nat -> RowEnv, k: nat)
    requires k <= |rows| && k <= |rows'| && rows[..k] == rows'[..k]
    requires forall i :: 0 <= i < k ==> env(i) == env'(i)
    ensures Run(s, step, rows, env, k) == Run(s, step, rows', env', k)
    decreases k
  {
    if k > 0 {
      assert rows[..k - 1] == rows[..k][..k - 1] && rows'[..k - 1] == rows'[..k][..k - 1];
      assert rows[k - 1] == rows[..k][k - 1] && rows'[k - 1] == rows'[..k][k - 1];
      RunDependsOnPrefix(s, step, rows, rows', env, env', k - 1);
    }
  }

  /** The last row of the file is never processed: two files that differ only
      in their last row, run with answers that differ only from that row on,
      leave the same stores. */
  lemma LastRowNeverProcessed(s: Stores, section: RedisDb.RawRedisSection, bucket: string,
                              data: seq<Row>, data': seq<Row>, env: nat -> RowEnv, env': nat -> RowEnv)
    requires |data| == |data'| > 0 && data[..|data| - 1] == data'[..|data'| - 1]
    requires forall i :: 0 <= i < |data| - 1 ==> env(i) == env'(i)
    ensures Run(s, RowStepOf(section, bucket), RowsToProcess(data), env, |RowsToProcess(data)|)
         == Run(s, RowStepOf(section, bucket), RowsToProcess(data'), env', |RowsToProcess(data')|)
  {
    var rows := RowsToProcess(data);
    RunDependsOnPrefix(s, RowStepOf(section, bucket), rows, RowsToProcess(data'), env, env', |rows|);
  }

  /** A vector entry, once stored, is never replaced or removed by the run. */
  lemma {:induction false} RunKeepsVectors(s: Stores, section: RedisDb.RawRedisSection, bucket: string,
                                           rows: seq<Row>, env: nat -> RowEnv, k: nat, key: string)
    requires k <= |rows| && key in s.vectors
    ensures key in Run(s, RowStepOf(section, bucket), rows, env, k).stores.vectors
    ensures Run(s, RowStepOf(section, bucket), rows, env, k).stores.vectors[key] == s.vectors[key]
    decreases k
  {
    if k > 0 {
      RunKeepsVectors(s, section, bucket, rows, env, k - 1, key);
      var prev := Run(s, RowStepOf(section, bucket), rows, env, k - 1);
      var e := env(k - 1);
      if !prev.stopped && HasHash(e) && RedisDb.ValidateConfig(section).Success? {
        RowTouchesOnlyItsHash(prev.stores, section, bucket, rows[k - 1], e);
      }
    }
  }

  // ---------------------------------------------------------------------------
  // The script
  // ---------------------------------------------------------------------------

  function Snapshot(cluster: RedisDb.RedisCluster, bucket: S3.Bucket, table: DynamoDb.Table): Stores
    reads cluster, bucket, table
  {
    Stores(cluster.entries, cluster.indexes, bucket.objects, table.items)
  }

  /** One iteration of main.py's loop against the live stores; `stopped`
      reports an exception that ends the script. */
  method ProcessRowInPlace(row: Row, e: RowEnv, section: RedisDb.RawRedisSection, cluster: RedisDb.RedisCluster,
                           bucket: S3.Bucket, table: DynamoDb.Table) returns (stopped: bool)
    modifies cluster, bucket, table
    ensures Step(Snapshot(cluster, bucket, table), stopped)
         == ProcessRow(old(Snapshot(cluster, bucket, table)), section, bucket.name, row, e)
  {
    if !HasHash(e) {
      // `embed_api` raised, or `results[0]` of an empty list did
      return true;
    }
    var result := e.embed.results[0];
    var h := result.imageHash;
    var cfg := RedisDb.ValidateConfig(section);
    if cfg.Failure? {
      // `RedisDataBase()` re-raises the validation error
      return true;
    }
    var vectorDb := new RedisDb.RedisDataBase(cfg.value, cluster, e.redisReachable, e.redisCreateFails);
    vectorDb.UploadEmbeddings([h], [result.embedding], [row.imageUrl], [row.asin], [row.title],
                              RedisDb.DefaultTag, e.redisRaisesAt);
    var blobs := new S3.S3Manager(bucket);
    var urls, raised := blobs.UploadImages(S3.Many([row.imageUrl]), S3.Single(h), Repeat(e.s3));
    if raised {
      return true;
    }
    var metadata := MakeMetadata(row.asin, h, urls[0], row.imageUrl);
    if metadata.None? {
      return true;
    }
    var metadataDb := new DynamoDb.DynamoDBManager(table);
    stopped := metadataDb.InsertMetadata(metadata.value, e.dynamo);
  }

  /** main.py: drop the last row, then process the rows in order, building the
      three managers afresh for each, until the rows run out or an exception
      ends the script. */
  method RunPipeline(data: seq<Row>, section: RedisDb.RawRedisSection, cluster: RedisDb.RedisCluster,
                     bucket: S3.Bucket, table: DynamoDb.Table, env: nat -> RowEnv)
    modifies cluster, bucket, table
    ensures Snapshot(cluster, bucket, table)
         == Run(old(Snapshot(cluster, bucket, table)), RowStepOf(section, bucket.name), RowsToProcess(data), env,
                |RowsToProcess(data)|).stores
  {
    ghost var start := Snapshot(cluster, bucket, table);
    ghost var step := RowStepOf(section, bucket.name);
    var rows := RowsToProcess(data);
    var stopped := false;
    var i := 0;
    while i < |rows| && !stopped
      invariant 0 <= i <= |rows|
      invariant Run(start, step, rows, env, i) == Step(Snapshot(cluster, bucket, table), stopped)
    {
      stopped := ProcessRowInPlace(rows[i], env(i), section, cluster, bucket, table);
      i := i + 1;
    }
    if stopped {
      RunStoppedStays(start, step, rows, env, i, |rows|);
    }
  }
}
