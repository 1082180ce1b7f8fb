/**
 * The vector store manager of src/aws/redisDB/redis_db.py.
 *
 * The Redis cluster is a class whose fields are its keyspace (hash key to
 * `{tag, vector}` entry) and its search indexes; `RedisDataBase` holds the
 * validated configuration and a reference to the cluster, which outlives it.
 * Remote failures are parameters: whether the cluster could be reached when the
 * manager was built, whether creating the index raises (a cluster without the
 * search module, say), and at which item (if any) an upload batch raises.
 */
module RedisDb {
  import opened Common

  /** An embedding as the inference service returns it. */
  type Embedding = seq<real>

  /** The half-precision byte encoding of an embedding. The encoding is kept
      opaque: an entry records which embedding was encoded, not its bytes. */
  datatype EncodedVector = Float16Bytes(source: Embedding)

  /** The two hash fields written per key. */
  datatype VectorEntry = VectorEntry(tag: string, vector: EncodedVector)

  const DefaultTag: string := "amazon"
  const DefaultVectorDim: int := 1024
  const DefaultHashPrefix: string := "HASH:"
  const DefaultSsl: bool := true
  const MinPort: int := 1
  const MaxPort: int := 65535

  // ---------------------------------------------------------------------------
  // Configuration (`RedisConfig`)
  // ---------------------------------------------------------------------------

  /** The `redis` configuration section, field by field, before validation. */
  datatype RawRedisSection = RawRedisSection(
    host: Option<string>,
    port: Option<int>,
    index: Option<string>,
    vectorDim: Option<int>,
    hashPrefix: Option<string>,
    ssl: Option<bool>)

  datatype RedisConfig = RedisConfig(
    host: string,
    port: int,
    index: string,
    vectorDim: int,
    hashPrefix: string,
    ssl: bool)

  datatype ConfigError = MissingHost | MissingPort | PortOutOfRange(port: int) | MissingIndex

  ghost predicate ValidConfig(cfg: RedisConfig)
  {
    MinPort <= cfg.port <= MaxPort
  }

  function OrDefault<T>(o: Option<T>, default: T): T
  {
    match o
    case Some(v) => v
    case None => default
  }

  /** Every field error, in declaration order, as a validation error lists them. */
  function ConfigErrors(raw: RawRedisSection): seq<ConfigError>
  {
    (if raw.host.None? then [MissingHost] else [])
    + (match raw.port
       case None => [MissingPort]
       case Some(p) => if MinPort <= p <= MaxPort then [] else [PortOutOfRange(p)])
    + (if raw.index.None? then [MissingIndex] else [])
  }

  /** Validation of the section: host, port and index are required, the port
      must lie in 1..65535, and the other three fields have defaults. */
  function ValidateConfig(raw: RawRedisSection): (r: Result<RedisConfig, seq<ConfigError>>)
    ensures r.Success? <==>
      raw.host.Some? && raw.port.Some? && raw.index.Some? && MinPort <= raw.port.value <= MaxPort
    ensures r.Success? ==> ValidConfig(r.value)
    ensures r.Success? ==>
      r.value.host == raw.host.value && r.value.port == raw.port.value && r.value.index == raw.index.value
    ensures r.Failure? ==> |r.error| > 0
  {
    var errors := ConfigErrors(raw);
    if errors != [] then Failure(errors)
    else Success(RedisConfig(
      raw.host.value, raw.port.value, raw.index.value,
      OrDefault(raw.vectorDim, DefaultVectorDim),
      OrDefault(raw.hashPrefix, DefaultHashPrefix),
      OrDefault(raw.ssl, DefaultSsl)))
  }

  /** Fields left out of the section take their defaults. */
  lemma ValidateConfigDefaults(raw: RawRedisSection)
    requires ValidateConfig(raw).Success?
    ensures raw.vectorDim.None? ==> ValidateConfig(raw).value.vectorDim == 1024
    ensures raw.hashPrefix.None? ==> ValidateConfig(raw).value.hashPrefix == "HASH:"
    ensures raw.ssl.None? ==> ValidateConfig(raw).value.ssl
    ensures raw.vectorDim.Some? ==> ValidateConfig(raw).value.vectorDim == raw.vectorDim.value
    ensures raw.hashPrefix.Some? ==> ValidateConfig(raw).value.hashPrefix == raw.hashPrefix.value
    ensures raw.ssl.Some? ==> ValidateConfig(raw).value.ssl == raw.ssl.value
  {
  }

  // ---------------------------------------------------------------------------
  // Index provisioning (`connect_to_redis`, `create_index`)
  // ---------------------------------------------------------------------------

  datatype FieldSpec =
    | TagField(name: string)
    | VectorField(name: string, algorithm: string, elementType: string, dim: int, metric: string)

  /** A search index over hashes whose keys start with one of `prefixes`. */
  datatype IndexSchema = IndexSchema(fields: seq<FieldSpec>, prefixes: seq<string>, overHashes: bool)

  /** The schema `create_index` declares for a configuration. */
  function SchemaFor(cfg: RedisConfig): IndexSchema
  {
    IndexSchema(
      [TagField("tag"), VectorField("vector", "FLAT", "FLOAT32", cfg.vectorDim, "COSINE")],
      [cfg.hashPrefix],
      true)
  }

  /** The cluster's indexes after a manager is built: the configured index is
      created exactly when the cluster is reachable, the `info` probe finds no
      index of that name and the creation call does not raise. An unreachable
      cluster leaves the client unset, so the creation attempt itself fails; every
      failure is logged and changes nothing. */
  function ProvisionIndex(indexes: map<string, IndexSchema>, cfg: RedisConfig, reachable: bool,
                          createFails: bool)
    : (r: map<string, IndexSchema>)
    ensures forall name :: name in indexes ==> name in r && r[name] == indexes[name]
    ensures r.Keys <= indexes.Keys + {cfg.index}
    ensures cfg.index in r <==> cfg.index in indexes || (reachable && !createFails)
    ensures cfg.index in r && cfg.index !in indexes ==> r[cfg.index] == SchemaFor(cfg)
    ensures !reachable || createFails ==> r == indexes
  {
    if reachable && !createFails && cfg.index !in indexes then indexes[cfg.index := SchemaFor(cfg)]
    else indexes
  }

  /** Building a second manager against the same cluster, with the same remote
      answers, changes no index. */
  lemma ProvisionIndexIdempotent(indexes: map<string, IndexSchema>, cfg: RedisConfig, reachable: bool,
                                 createFails: bool)
    ensures ProvisionIndex(ProvisionIndex(indexes, cfg, reachable, createFails), cfg, reachable, createFails)
         == ProvisionIndex(indexes, cfg, reachable, createFails)
  {
  }

  // ---------------------------------------------------------------------------
  // Existence-checked upload (`upload_embeddings`)
  // ---------------------------------------------------------------------------

  /** The key an entry for hash `h` is stored under. */
  function KeyOf(prefix: string, h: string): string
  {
    prefix + h
  }

  /** The store after one item: the key is written only if it is absent. */
  function InsertIfAbsent(store: map<string, VectorEntry>, key: string, entry: VectorEntry)
    : map<string, VectorEntry>
  {
    if key in store then store else store[key := entry]
  }

  /** The store after the first `k` items of a batch have been processed. */
  function Upsert(store: map<string, VectorEntry>, prefix: string, hashes: seq<string>,
                  vectors: seq<Embedding>, tag: string, k: nat): map<string, VectorEntry>
    requires k <= |hashes| && k <= |vectors|
    decreases k
  {
    if k == 0 then store
    else
      var prev := Upsert(store, prefix, hashes, vectors, tag, k - 1);
      InsertIfAbsent(prev, KeyOf(prefix, hashes[k - 1]), VectorEntry(tag, Float16Bytes(vectors[k - 1])))
  }

  /** An existing entry is never overwritten, and every processed hash has an
      entry afterwards. */
  lemma {:induction false} UpsertKeepsAndCovers(store: map<string, VectorEntry>, prefix: string,
                                                hashes: seq<string>, vectors: seq<Embedding>,
                                                tag: string, k: nat)
    requires k <= |hashes| && k <= |vectors|
    ensures forall key :: key in store ==>
      key in Upsert(store, prefix, hashes, vectors, tag, k)
      && Upsert(store, prefix, hashes, vectors, tag, k)[key] == store[key]
    ensures forall i :: 0 <= i < k ==> KeyOf(prefix, hashes[i]) in Upsert(store, prefix, hashes, vectors, tag, k)
    decreases k
  {
    if k > 0 {
      UpsertKeepsAndCovers(store, prefix, hashes, vectors, tag, k - 1);
    }
  }

  /** Only keys of processed hashes are added, and they carry the batch's tag. */
  lemma {:induction false} UpsertOnlyBatchKeys(store: map<string, VectorEntry>, prefix: string,
                                               hashes: seq<string>, vectors: seq<Embedding>,
                                               tag: string, k: nat)
    requires k <= |hashes| && k <= |vectors|
    ensures forall key :: key in Upsert(store, prefix, hashes, vectors, tag, k) && key !in store ==>
      Upsert(store, prefix, hashes, vectors, tag, k)[key].tag == tag
      && exists i :: 0 <= i < k && key == KeyOf(prefix, hashes[i])
    decreases k
  {
    if k > 0 {
      UpsertOnlyBatchKeys(store, prefix, hashes, vectors, tag, k - 1);
    }
  }

  lemma KeyOfInjective(prefix: string, a: string, b: string)
    requires KeyOf(prefix, a) == KeyOf(prefix, b)
    ensures a == b
  {
    assert a == (prefix + a)[|prefix|..];
    assert b == (prefix + b)[|prefix|..];
  }

  /** The item that first brings a hash into the store writes its own vector. */
  lemma UpsertWritesNewKey(store: map<string, VectorEntry>, prefix: string, hashes: seq<string>,
                           vectors: seq<Embedding>, tag: string, i: nat)
    requires i < |hashes| && i < |vectors|
    requires KeyOf(prefix, hashes[i]) !in store
    requires forall j :: 0 <= j < i ==> hashes[j] != hashes[i]
    ensures KeyOf(prefix, hashes[i]) in Upsert(store, prefix, hashes, vectors, tag, i + 1)
    ensures Upsert(store, prefix, hashes, vectors, tag, i + 1)[KeyOf(prefix, hashes[i])]
         == VectorEntry(tag, Float16Bytes(vectors[i]))
  {
    var key := KeyOf(prefix, hashes[i]);
    var prev := Upsert(store, prefix, hashes, vectors, tag, i);
    UpsertOnlyBatchKeys(store, prefix, hashes, vectors, tag, i);
    assert key !in prev by {
      if key in prev {
        var j :| 0 <= j < i && key == KeyOf(prefix, hashes[j]);
        KeyOfInjective(prefix, hashes[j], hashes[i]);
        assert false;
      }
    }
  }

  /** Within a batch, the first occurrence of a new hash decides its vector. */
  lemma {:induction false} UpsertFirstWins(store: map<string, VectorEntry>, prefix: string,
                                           hashes: seq<string>, vectors: seq<Embedding>,
                                           tag: string, k: nat, i: nat)
    requires k <= |hashes| && k <= |vectors| && i < k
    requires KeyOf(prefix, hashes[i]) !in store
    requires forall j :: 0 <= j < i ==> hashes[j] != hashes[i]
    ensures KeyOf(prefix, hashes[i]) in Upsert(store, prefix, hashes, vectors, tag, k)
    ensures Upsert(store, prefix, hashes, vectors, tag, k)[KeyOf(prefix, hashes[i])]
         == VectorEntry(tag, Float16Bytes(vectors[i]))
    decreases k
  {
    if k - 1 == i {
      UpsertWritesNewKey(store, prefix, hashes, vectors, tag, i);
    } else {
      UpsertFirstWins(store, prefix, hashes, vectors, tag, k - 1, i);
      UpsertKeepsAndCovers(store, prefix, hashes, vectors, tag, k - 1);
      assert KeyOf(prefix, hashes[i]) in Upsert(store, prefix, hashes, vectors, tag, k - 1);
    }
  }

  /** A batch all of whose keys already exist writes nothing. */
  lemma {:induction false} UpsertNoop(store: map<string, VectorEntry>, prefix: string,
                                      hashes: seq<string>, vectors: seq<Embedding>,
                                      tag: string, k: nat)
    requires k <= |hashes| && k <= |vectors|
    requires forall i :: 0 <= i < k ==> KeyOf(prefix, hashes[i]) in store
    ensures Upsert(store, prefix, hashes, vectors, tag, k) == store
  {
    if k > 0 {
      UpsertNoop(store, prefix, hashes, vectors, tag, k - 1);
    }
  }

  /** Uploading the same batch twice leaves the store as uploading it once. */
  lemma UpsertIdempotent(store: map<string, VectorEntry>, prefix: string, hashes: seq<string>,
                         vectors: seq<Embedding>, tag: string, k: nat)
    requires k <= |hashes| && k <= |vectors|
    ensures Upsert(Upsert(store, prefix, hashes, vectors, tag, k), prefix, hashes, vectors, tag, k)
         == Upsert(store, prefix, hashes, vectors, tag, k)
  {
    UpsertKeepsAndCovers(store, prefix, hashes, vectors, tag, k);
    UpsertNoop(Upsert(store, prefix, hashes, vectors, tag, k), prefix, hashes, vectors, tag, k);
  }

  /** How many items `zip` yields over the five argument lists. */
  function ZipLength(a: nat, b: nat, c: nat, d: nat, e: nat): (n: nat)
    ensures n <= a && n <= b && n <= c && n <= d && n <= e
    ensures n == a || n == b || n == c || n == d || n == e
  {
    Min(Min(Min(Min(a, b), c), d), e)
  }

  /** How many of `n` items are processed before the single handler catches an
      exception: none without a client, otherwise those before `raisesAt`. */
  function Attempted(n: nat, connected: bool, raisesAt: Option<nat>): (k: nat)
    ensures k <= n
    ensures !connected ==> k == 0
    ensures connected && raisesAt.None? ==> k == n
    ensures connected && raisesAt.Some? ==> k == Min(n, raisesAt.value)
  {
    if !connected then 0
    else match raisesAt
      case None => n
      case Some(i) => Min(n, i)
  }

  // ---------------------------------------------------------------------------
  // The cluster and the manager
  // ---------------------------------------------------------------------------

  /** The state of the Redis cluster that outlives every manager. */
  class RedisCluster {
    var entries: map<string, VectorEntry>
    var indexes: map<string, IndexSchema>

    constructor (entries: map<string, VectorEntry>, indexes: map<string, IndexSchema>)
      ensures this.entries == entries && this.indexes == indexes
    {
      this.entries := entries;
      this.indexes := indexes;
    }
  }

  lemma KeysWithPrefix(entries: map<string, VectorEntry>, p: string)
    ensures |set key | key in entries && p <= key| > 0 <==> exists key :: key in entries && p <= key
  {
    var keys := set key | key in entries && p <= key;
    if |keys| > 0 {
      var key :| key in keys;
    }
    if key :| key in entries && p <= key {
      assert key in keys;
    }
  }

  /** The glob metacharacters of the `KEYS` pattern language. */
  predicate NoGlobChars(p: string)
  {
    forall i :: 0 <= i < |p| ==> p[i] !in {'*', '?', '[', ']', '\\'}
  }

  class RedisDataBase {
    const config: RedisConfig
    const cluster: RedisCluster
    /** Whether the client `r` was created (the cluster was reachable). */
    var connected: bool

    /** Builds the manager from a validated configuration and connects. */
    constructor (config: RedisConfig, cluster: RedisCluster, reachable: bool, createFails: bool)
      modifies cluster
      ensures this.config == config && this.cluster == cluster && connected == reachable
      ensures cluster.indexes == ProvisionIndex(old(cluster.indexes), config, reachable, createFails)
      ensures cluster.entries == old(cluster.entries)
    {
      this.config := config;
      this.cluster := cluster;
      connected := false;
      new;
      ConnectToRedis(reachable, createFails);
    }

    /** Creates the client, probes the index, and creates it when the probe fails. */
    method ConnectToRedis(reachable: bool, createFails: bool)
      modifies this, cluster
      ensures connected == reachable
      ensures cluster.indexes == ProvisionIndex(old(cluster.indexes), config, reachable, createFails)
      ensures cluster.entries == old(cluster.entries)
    {
      connected := reachable;
      var probeFound := connected && config.index in cluster.indexes;
      if !probeFound {
        CreateIndex(createFails);
      }
    }

    /** Creates the configured index; any failure (no client, name taken, the
        call raising) is logged and creates nothing. */
    method CreateIndex(createFails: bool)
      modifies cluster
      ensures cluster.indexes ==
        if connected && !createFails && config.index !in old(cluster.indexes)
        then old(cluster.indexes)[config.index := SchemaFor(config)]
        else old(cluster.indexes)
      ensures cluster.entries == old(cluster.entries)
    {
      if connected && !createFails && config.index !in cluster.indexes {
        cluster.indexes := cluster.indexes[config.index := SchemaFor(config)];
      }
    }

    /** Writes `{tag, vector}` under `prefix + hash` for each new hash of the
        batch, skipping hashes already present. A length mismatch between hashes
        and embeddings returns before anything is written; an exception at item
        `raisesAt` ends the batch with earlier writes kept. */
    method UploadEmbeddings(hashes: seq<string>, embeddings: seq<Embedding>, imageUrls: seq<string>,
                            asins: seq<string>, imageTitles: seq<string>, tag: string,
                            raisesAt: Option<nat>)
      modifies cluster
      ensures |hashes| != |embeddings| ==> cluster.entries == old(cluster.entries)
      ensures |hashes| == |embeddings| ==>
        cluster.entries == Upsert(old(cluster.entries), config.hashPrefix, hashes, embeddings, tag,
          Attempted(ZipLength(|hashes|, |embeddings|, |imageUrls|, |asins|, |imageTitles|),
                    connected, raisesAt))
      ensures cluster.indexes == old(cluster.indexes)
    {
      if |hashes| != |embeddings| {
        return;
      }
      var n := ZipLength(|hashes|, |embeddings|, |imageUrls|, |asins|, |imageTitles|);
      var i := 0;
      // an exception (no client, or a failing `exists`/`hset`) leaves the loop
      // and is caught by the handler around it
      while i < n && connected && raisesAt != Some(i)
        invariant 0 <= i <= n
        invariant !connected ==> i == 0
        invariant raisesAt.Some? ==> i <= raisesAt.value
        invariant cluster.entries == Upsert(old(cluster.entries), config.hashPrefix, hashes, embeddings, tag, i)
        invariant cluster.indexes == old(cluster.indexes)
      {
        var key := KeyOf(config.hashPrefix, hashes[i]);
        if key !in cluster.entries {
          cluster.entries := cluster.entries[key := VectorEntry(tag, Float16Bytes(embeddings[i]))];
        }
        i := i + 1;
      }
      assert i == Attempted(n, connected, raisesAt);
    }

    /** Whether some key of the cluster starts with `p`; false on any error. */
    function HashPrefixExists(p: string, raises: bool): (b: bool)
      requires NoGlobChars(p)
      reads this, cluster
      ensures b <==> !raises && connected && exists key :: key in cluster.entries && p <= key
    {
      if raises || !connected then false
      else
        KeysWithPrefix(cluster.entries, p);
        |set key | key in cluster.entries && p <= key| > 0
    }
  }
}
