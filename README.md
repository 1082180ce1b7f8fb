# Product ingestion fan-out, modelled in Dafny

The system ingests a catalogue of products. For each product row, a remote
inference service returns an embedding and a content hash of the product image.
That one hash then keys three writes, made in this order:

1. The vector goes into a Redis cluster under `HASH:<hash>`, using a search
   index that the Redis manager creates on first contact.
2. The image is downloaded and stored in an S3 bucket as `<hash>.jpg`.
3. A metadata item goes into a DynamoDB table, keyed by the hash.

Re-running the script must not duplicate anything:

- Redis checks whether the key exists before writing.
- S3 probes for the object before downloading it.
- DynamoDB overwrites the item under the same key.

The project models the three store managers and the driving script:

- `common.dfy`: `Option`, `Result`, `Min`, and the "only this key changed" predicate.
- `redis_db.dfy` (module `RedisDb`) covers the following:
  - Configuration validation, with its defaults.
  - Index provisioning.
  - The existence-checked vector upload: a loop over a class holding the cluster's keyspace.
  - The key-prefix query.
- `s3.dfy` (module `S3`) covers the following:
  - Object key and URL derivation.
  - The existence probe.
  - The single-image and batch upload. The batch is a loop that updates the bucket's objects in place, proved against a prefix-recursive specification.
- `dynamo_db.dfy` (module `DynamoDb`): the put and get of a metadata item, on a table class.
- `pipeline.dfy` (module `Pipeline`): the script's per-row loop over the three live stores.
  - A fresh manager is built for each row.
  - The loop is proved equal to a fold of a pure row step. The run stops at the first exception that no manager catches.

Remote behaviour is supplied as oracle parameters:

- whether the cluster is reachable, and whether creating the index raises;
- the item at which a Redis batch raises;
- how each S3 head, download and put goes: answered, a `ClientError`, a `NoCredentialsError`, or any other exception such as a connection error;
- how a DynamoDB call goes: done, a `ClientError`, or any other exception;
- what the inference service answers.

In these places the model follows the code, though a reader might expect otherwise:

- **Redis batch on error:** one `try` wraps the whole loop (`redis_db.py:85-101`). The batch therefore stops at the first exception, and the writes already made are kept.
- **Uncaught exceptions:** the S3 handlers catch only `NoCredentialsError` and `ClientError`, and `insert_metadata` catches only `ClientError`. Any other exception escapes the manager and ends the script. This covers a download that raises, and a connection error from `head_object`, `put_object` or `put_item`.
- **Probe credential error:** `get_existing_s3_url` catches only `ClientError`. Its `NoCredentialsError` therefore escapes `upload_image`, but the per-item handler of `upload_images` catches it.
- **Metadata title:** the item's `image_title` is the row's image-URL column, not the title column (`main.py:49`).
- **Last row:** the script drops the last row of the file before the loop (`main.py:11`). An empty file raises at that point, and the model processes no rows.
- **Vector type:** the index declares `FLOAT32` vectors (`redis_db.py:69`), but the upload writes float16 bytes (`redis_db.py:94-95`). The model records both facts, in `SchemaFor` and `Float16Bytes`, and does not reconcile them.

## Model

| member | source | states |
|---|---|---|
| RedisDb.ValidateConfig | src/aws/redisDB/redis_db.py:19-25 | The configuration is valid exactly when host, port and index are given and the port lies in 1..65535. A valid result copies those three fields; an invalid one carries at least one error. |
| RedisDb.ValidateConfigDefaults | src/aws/redisDB/redis_db.py:23-25 | When omitted, the vector dimension defaults to 1024, the hash prefix to "HASH:" and ssl to true. Given values are kept. |
| RedisDb.SchemaFor | src/aws/redisDB/redis_db.py:66-77 | The declared index: a tag field and a FLAT, FLOAT32, COSINE vector field of the configured dimension, over hashes under the configured prefix. It is a definition; `ProvisionIndex` states when it is installed. |
| RedisDb.ProvisionIndex | src/aws/redisDB/redis_db.py:48-81 | Building a manager keeps every existing index and may add only the configured one. The configured index exists afterwards exactly when it already did, or the cluster is reachable and creation does not raise; a new index has `SchemaFor`'s schema. An unreachable cluster or a failed creation changes nothing. |
| RedisDb.ProvisionIndexIdempotent | src/aws/redisDB/redis_db.py:57-81 | Building a second manager against the same cluster, with the same remote answers, changes no index. |
| RedisDb.RedisDataBase.constructor | src/aws/redisDB/redis_db.py:28-45 | A manager holds the validated configuration and the cluster. It connects; the indexes become those given by `ProvisionIndex` and the keyspace is unchanged. |
| RedisDb.RedisDataBase.ConnectToRedis | src/aws/redisDB/redis_db.py:48-62 | After connecting, the client exists exactly when the cluster was reachable, and a failed index probe leads to a creation attempt; the indexes become `ProvisionIndex`'s result. |
| RedisDb.RedisDataBase.CreateIndex | src/aws/redisDB/redis_db.py:64-81 | The index is created only with a client, only under a free name and only when the call does not raise. Every failure is logged and changes nothing. |
| RedisDb.RedisDataBase.UploadEmbeddings | src/aws/redisDB/redis_db.py:83-101 | If the hash and embedding counts differ, nothing is written. Otherwise the keyspace becomes the existence-checked upsert of the zipped items processed before the first exception. Indexes are untouched. |
| RedisDb.Upsert | src/aws/redisDB/redis_db.py:90-95 | The keyspace after the first `k` items: each item writes `{tag, vector}` under `prefix + hash` only if that key is absent. Its properties are the lemmas below. |
| RedisDb.UpsertKeepsAndCovers | src/aws/redisDB/redis_db.py:90-95 | An existing key keeps its value, and every processed hash has a key afterwards. |
| RedisDb.UpsertOnlyBatchKeys | src/aws/redisDB/redis_db.py:90-95 | Every new key is `prefix + hash` for a processed hash and carries the batch's tag. |
| RedisDb.KeyOfInjective | src/aws/redisDB/redis_db.py:91 | Under one prefix, distinct hashes never share a key. |
| RedisDb.UpsertWritesNewKey | src/aws/redisDB/redis_db.py:91-95 | The item that first brings a hash into the store writes its own tag and vector. |
| RedisDb.UpsertFirstWins | src/aws/redisDB/redis_db.py:90-95 | Within a batch, the first occurrence of a new hash decides the stored vector, and later duplicates are skipped. |
| RedisDb.UpsertNoop | src/aws/redisDB/redis_db.py:91-92 | A batch whose keys all exist writes nothing. |
| RedisDb.UpsertIdempotent | src/aws/redisDB/redis_db.py:90-95 | Uploading a batch twice leaves the same keyspace as uploading it once. |
| RedisDb.ZipLength | src/aws/redisDB/redis_db.py:90 | `zip` yields as many items as the shortest of its five lists. |
| RedisDb.Attempted | src/aws/redisDB/redis_db.py:85-101 | The loop processes no item without a client. Otherwise it processes all items, or those before the raising one. |
| RedisDb.KeysWithPrefix | src/aws/redisDB/redis_db.py:116-117 | The matching-key list is non-empty exactly when some key starts with the prefix. |
| RedisDb.RedisDataBase.HashPrefixExists | src/aws/redisDB/redis_db.py:114-120 | The result is true exactly when the call does not raise, a client exists and some key starts with the prefix. |
| S3.ObjectKeyInjective | src/aws/s3/s3.py:36 | Distinct hashes never share an object key `<hash>.jpg`. |
| S3.ObjectUrlInjective | src/aws/s3/s3.py:40 | The URL ends with the object key, and distinct hashes in one bucket never share a URL. |
| S3.GetExistingS3Url | src/aws/s3/s3.py:90-99 | The probe returns a URL exactly when head is answered and the object exists, and that URL is the canonical one. It lets the credential error escape exactly on a credential error, and any other non-`ClientError` exception exactly when head raises one. Any other `ClientError`, or a 404, gives none. |
| S3.FetchAndPut | src/aws/s3/s3.py:28-48 | The download always happens. An exception escapes exactly when the download raises, or the put after a 200 answer raises something other than the two caught botocore errors. A URL is returned exactly on a 200 answer and a successful put; the object then holds the downloaded bytes, and otherwise the bucket is unchanged. |
| S3.UploadImageSpec | src/aws/s3/s3.py:22-48 | `upload_image` raises exactly when the probe raises (either kind), or the image is downloaded and the download or put escapes. A URL is canonical with its object in the bucket; no URL leaves the bucket unchanged. The image is downloaded exactly when the probe neither raises nor finds the object, and then the result is the download-and-put step's. |
| S3.BatchItem | src/aws/s3/s3.py:60-86 | One item of the batch raises exactly when head raises a non-`ClientError`, non-credential exception, or the image is downloaded and the download or put escapes. A URL is always canonical, and its object is then in the bucket. No URL leaves the bucket unchanged and, unless an exception escaped, implies a failed transport. The image is downloaded exactly when the probe neither raises nor finds the object, and then the result is the download-and-put step's. |
| S3.ExistingObjectShortCircuits | src/aws/s3/s3.py:23-26 | When the probe is answered and finds the object, both uploads return its URL with no download and no put. A probe that fails with another `ClientError` gives no URL, and the image is downloaded and put again. |
| S3.SingleAgreesWithBatch | src/aws/s3/s3.py:22-86 | `upload_image` and one batch item agree, except that a probe credential error escapes the former and gives `None` in the latter. |
| S3.BatchItemIdempotent | src/aws/s3/s3.py:59-86 | Uploading the same image twice gives the same URL, bucket and escape. Once it is stored, an answered probe serves it without a download. |
| S3.UploadAll | src/aws/s3/s3.py:59-88 | The batch yields one result per item, in order, unless an exception escapes. An escape happens only at an item one of whose calls can raise past the handlers (head, download, or put), so a batch with no such item never escapes. |
| S3.UploadAllStep | src/aws/s3/s3.py:59-86 | One more item extends the batch by what `BatchItem` answers against the bucket left so far, or ends it when that item escapes. |
| S3.UploadAllRaisedStays | src/aws/s3/s3.py:59-88 | Once an exception escapes, no later item is attempted. |
| S3.UploadAllPrefix | src/aws/s3/s3.py:64-86 | Results are appended in input order, and the bucket never loses a key. |
| S3.UploadAllItem | src/aws/s3/s3.py:59-86 | Result `i` is what item `i` answers against the bucket left by the items before it. |
| S3.UploadAllUrls | src/aws/s3/s3.py:59-86 | Every returned URL is its own hash's canonical URL, and that object is in the bucket. `None` appears exactly when that item's probe raised a credential error, or the image was downloaded and the download did not answer 200 or the put did not succeed. |
| S3.RepeatedHashNotRefetched | src/aws/s3/s3.py:59-64 | When a hash is repeated later in a batch, the first occurrence got a URL and the later probe is answered, the later item is served from the bucket with no second download and the same URL. |
| S3.UploadAllFrame | src/aws/s3/s3.py:74-75 | Only the object keys of downloaded items change. |
| S3.AsList | src/aws/s3/s3.py:53-57 | A single string is wrapped into a one-element list, and a list is kept as it is. |
| S3.S3Manager.UploadImage | src/aws/s3/s3.py:22-48 | `upload_image` returns a URL, updates the bucket and reports an escape exactly as `UploadImageSpec` does. |
| S3.S3Manager.UploadBatchItem | src/aws/s3/s3.py:60-86 | One pass of `upload_images`'s loop body returns a URL, updates the bucket and reports an escape exactly as `BatchItem` does. |
| S3.S3Manager.UploadImages | src/aws/s3/s3.py:50-88 | `upload_images` returns the zipped batch's results and updates the bucket as `UploadAll` does, including an escaping exception. |
| DynamoDb.PutItem | src/aws/dynamoDB/dynamo_db.py:25-38 | A completed put stores the item under its hash and touches no other key. A put that fails, by `ClientError` or any other exception, changes nothing, and every item stays keyed by its own hash. |
| DynamoDb.GetItem | src/aws/dynamoDB/dynamo_db.py:40-61 | A get returns an item exactly when the call succeeds and the hash is present. The item is then the stored one, keyed by that hash. |
| DynamoDb.PutThenGet | src/aws/dynamoDB/dynamo_db.py:25-61 | Reading back an inserted item returns exactly its four attributes. |
| DynamoDb.LastWriteWins | src/aws/dynamoDB/dynamo_db.py:27-35 | Of two inserts under one hash, the second wins; the put has no existence check. |
| DynamoDb.PutLeavesOtherKeys | src/aws/dynamoDB/dynamo_db.py:27-35 | An insert leaves what every other hash reads unchanged. |
| DynamoDb.DynamoDBManager.InsertMetadata | src/aws/dynamoDB/dynamo_db.py:25-38 | `insert_metadata` leaves the table as `PutItem` does. A `ClientError` is swallowed, and the method reports an escape exactly when the call raises anything else. |
| DynamoDb.DynamoDBManager.GetMetadata | src/aws/dynamoDB/dynamo_db.py:40-61 | `get_metadata` returns what `GetItem` does, and reports an escape exactly when the call raises something other than a `ClientError`. |
| DynamoDb.InsertTwiceThenGet | src/aws/dynamoDB/dynamo_db.py:25-61 | Through the manager, a stored item reads back, and a second insert under the same hash replaces it. |
| Pipeline.RowsToProcess | main.py:11 | The loop visits every row of the file except the last, in order. An empty file yields none. |
| Pipeline.MakeMetadata | main.py:45-50 | A metadata item exists exactly when the upload gave a URL, and it is keyed by the row's hash. |
| Pipeline.ProcessRow | main.py:31-52 | One loop iteration. A failed embedding call, an empty result list or an invalid configuration writes nothing and ends the run. A row that ends the run never writes metadata. The lemmas below give its frame, its completed case, its kept writes and its idempotence. |
| Pipeline.Run | main.py:31-52 | The run folds the row step over the rows in order and stops for good at the first row that raises past every handler. The lemmas below state its properties. |
| Pipeline.UploadOne | main.py:44 | A one-hash blob batch is exactly one batch item. |
| Pipeline.RowTouchesOnlyItsHash | main.py:31-52 | A row writes only under its own hash in each store, and existing vectors are kept. |
| Pipeline.RowCompletedJoinsStores | main.py:44-52 | A row that completes had no escaping `put_item` and has its image in the bucket. Unless the put failed with a `ClientError`, it also has an item under its hash holding the ASIN, the canonical URL and the image-URL column. |
| Pipeline.RowKeepsVectorWrite | main.py:39-43 | Whether or not a later step ends the run, a row against a reachable cluster that does not raise keeps its vector key. The key holds the row's embedding if it was new. |
| Pipeline.RowKeepsIndexAndImage | main.py:39-44 | Whether or not a later step ends the run, a row keeps its index creation and, when the blob batch gave a URL, its image. |
| Pipeline.RowStopsExactly | main.py:34-52 | A row stops the run exactly when the embedding call fails or returns no result, the configuration is invalid, the blob item raises or gives no URL (the metadata then fails validation), or `put_item` raises. |
| Pipeline.RowIdempotent | main.py:31-52 | Processing a row twice with the same answers leaves the stores as processing it once. |
| Pipeline.RunStoppedStays | main.py:31-52 | Once an exception has ended the run, no later row changes anything. |
| Pipeline.RunDependsOnPrefix | main.py:31-52 | The first `k` steps depend only on the first `k` rows and their answers. |
| Pipeline.LastRowNeverProcessed | main.py:11 | Files that differ only in their last row leave the same stores. |
| Pipeline.RunKeepsVectors | main.py:31-52 | A stored vector entry is never replaced or removed by the run. |
| Pipeline.ProcessRowInPlace | main.py:31-52 | One loop iteration against the live stores, with three fresh managers, changes them as `ProcessRow` does. It reports an exception ending the script in exactly `ProcessRow`'s cases, including a raising blob batch and a `put_item` raising anything but a `ClientError`. |
| Pipeline.RunPipeline | main.py:11-52 | The script leaves the three stores as `Run` does over all rows but the last, stopping at the first exception that escapes a manager. |

## Left out

- The half-precision encoding of vectors: `np.float16` rounding and the byte layout are kept abstract as `Float16Bytes(embedding)`, because floating point is not modelled.
- `clear_index` and the configuration loader `src/config/config.py`. The configuration arrives as a parsed `redis` section. A missing `bucket-name` or `table_name` key, which raises `KeyError` in the manager constructors, is not modelled.
- Reading the CSV file, logging, the `requests` and `boto3` clients and the embedding HTTP call. Their outcomes are oracle parameters.
- Pydantic's coercion of field values, for example a numeric string for the port. The section arrives already typed.
- A partial `hset`: the model writes both fields or raises before writing.
- A remote call that raises after the server applied it (a `put_object` or `put_item` whose reply is lost): the model treats a raising call as writing nothing.
- The download outcome is an oracle answer per item. It is not a function of the image URL, so two items with the same URL may receive different answers.
- The `image_urls`, `asins` and `image_titles` arguments of `upload_embeddings` only bound the number of zipped items; nothing is stored from them.
- RedisDb.RedisDataBase.HashPrefixExists: requires a prefix with no glob metacharacters (`* ? [ ] \`), because the model does not implement Redis glob matching. For other prefixes, the source's `KEYS` pattern differs from a plain prefix test.
