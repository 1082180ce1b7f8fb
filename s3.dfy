/**
 * The blob store manager of src/aws/s3/s3.py.
 *
 * The bucket is a class whose field maps object keys to their bytes; `S3Manager`
 * holds a reference to it. Each remote call is an oracle answer carried by a
 * `Transport` per item: how the `head_object` probe went, what `requests.get`
 * of the image URL answered, and how `put_object` went.
 */
module S3 {
  import opened Common

  type Bytes = seq<bv8>

  // ---------------------------------------------------------------------------
  // Key and URL derivation
  // ---------------------------------------------------------------------------

  const ObjectSuffix: string := ".jpg"

  /** The object key an image with content hash `h` is stored under. */
  function ObjectKey(h: string): string
  {
    h + ObjectSuffix
  }

  /** The public URL of that object; it depends on the bucket and hash only. */
  function ObjectUrl(bucket: string, h: string): string
  {
    "https://" + bucket + ".s3.amazonaws.com/" + ObjectKey(h)
  }

  /** Distinct hashes never share an object key. */
  lemma ObjectKeyInjective(a: string, b: string)
    requires ObjectKey(a) == ObjectKey(b)
    ensures a == b
  {
    assert |a| == |b|;
    assert a == ObjectKey(a)[..|a|];
    assert b == ObjectKey(b)[..|b|];
  }

  /** The URL ends with the object key, and distinct hashes in one bucket never
      share a URL. */
  lemma ObjectUrlInjective(bucket: string, a: string, b: string)
    ensures ObjectKey(a) <= ObjectUrl(bucket, a)[|ObjectUrl(bucket, a)| - |ObjectKey(a)|..]
    ensures ObjectUrl(bucket, a) == ObjectUrl(bucket, b) ==> a == b
  {
    var front := "https://" + bucket + ".s3.amazonaws.com/";
    assert ObjectUrl(bucket, a) == front + ObjectKey(a);
    assert ObjectUrl(bucket, b) == front + ObjectKey(b);
    assert ObjectUrl(bucket, a)[|front|..] == ObjectKey(a);
    if ObjectUrl(bucket, a) == ObjectUrl(bucket, b) {
      assert ObjectUrl(bucket, b)[|front|..] == ObjectKey(b);
      ObjectKeyInjective(a, b);
    }
  }

  // ---------------------------------------------------------------------------
  // Remote answers
  // ---------------------------------------------------------------------------

  /** `head_object` answered from the bucket's contents (found or 404), failed
      with some other `ClientError`, raised `NoCredentialsError`, or raised any
      other exception (a connection error, a timeout). */
  datatype HeadReply = HeadAnswered | HeadClientError | HeadNoCredentials | HeadRaised

  /** `requests.get` returned a response, or raised (a connection error). */
  datatype FetchReply = HttpResponse(status: int, content: Bytes) | FetchRaised

  /** How `put_object` went; `PutRaised` is an exception other than the two
      botocore errors the upload handlers catch. */
  datatype PutReply = PutDone | PutClientError | PutNoCredentials | PutRaised

  datatype Transport = Transport(head: HeadReply, fetch: FetchReply, put: PutReply)

  /** An item whose transport has some failure that can leave it without a URL. */
  predicate Faulty(t: Transport)
  {
    t.head.HeadNoCredentials?
    || (t.fetch.HttpResponse? && t.fetch.status != 200)
    || !t.put.PutDone?
  }

  /** The download raises, or the put after a 200 answer raises an exception
      that no handler of the upload catches. */
  predicate FetchEscapes(t: Transport)
  {
    t.fetch.FetchRaised? || (t.fetch.status == 200 && t.put.PutRaised?)
  }

  /** Some remote call of the item may raise past every handler of the batch. */
  predicate Escapes(t: Transport)
  {
    t.head.HeadRaised? || FetchEscapes(t)
  }

  // ---------------------------------------------------------------------------
  // `get_existing_s3_url`
  // ---------------------------------------------------------------------------

  /** The URL of an existing object, `None` (absent, or any `ClientError`), or one
      of the exceptions the function lets escape: the credential error or any
      other non-`ClientError` exception. */
  datatype Lookup = Exists(url: string) | Absent | LookupNoCredentials | LookupRaised

  function GetExistingS3Url(objects: map<string, Bytes>, bucket: string, h: string, head: HeadReply)
    : (r: Lookup)
    ensures r.Exists? <==> head.HeadAnswered? && ObjectKey(h) in objects
    ensures r.Exists? ==> r.url == ObjectUrl(bucket, h)
    ensures r.LookupNoCredentials? <==> head.HeadNoCredentials?
    ensures r.LookupRaised? <==> head.HeadRaised?
  {
    match head
    case HeadNoCredentials => LookupNoCredentials
    case HeadRaised => LookupRaised
    case HeadClientError => Absent
    case HeadAnswered => if ObjectKey(h) in objects then Exists(ObjectUrl(bucket, h)) else Absent
  }

  // ---------------------------------------------------------------------------
  // One image
  // ---------------------------------------------------------------------------

  /** What one upload returns (`url`), the bucket afterwards, whether the image
      was downloaded, and whether an exception escaped. */
  datatype ItemResult = ItemResult(url: Option<string>, objects: map<string, Bytes>, fetched: bool, raised: bool)

  /** Download the image and put it under the hash's key: a non-200 answer, or a
      put failing with `ClientError` or `NoCredentialsError`, gives `None`; a
      raising download, or any other exception of the put, escapes. */
  function FetchAndPut(objects: map<string, Bytes>, bucket: string, h: string, t: Transport)
    : (r: ItemResult)
    ensures r.fetched
    ensures r.raised <==> FetchEscapes(t)
    ensures r.url.Some? <==> t.fetch.HttpResponse? && t.fetch.status == 200 && t.put.PutDone?
    ensures r.url.Some? ==>
      r.url.value == ObjectUrl(bucket, h) && r.objects == objects[ObjectKey(h) := t.fetch.content]
    ensures r.url.None? ==> r.objects == objects
  {
    match t.fetch
    case FetchRaised => ItemResult(None, objects, true, true)
    case HttpResponse(status, content) =>
      if status != 200 then ItemResult(None, objects, true, false)
      else
        match t.put
        case PutDone => ItemResult(Some(ObjectUrl(bucket, h)), objects[ObjectKey(h) := content], true, false)
        case PutRaised => ItemResult(None, objects, true, true)
        case _ => ItemResult(None, objects, true, false)
  }

  /** `upload_image`: an existing object short-circuits; otherwise download and put.
      The existence probe runs outside the handler, so each of its exceptions escapes. */
  function UploadImageSpec(objects: map<string, Bytes>, bucket: string, h: string, t: Transport)
    : (r: ItemResult)
    ensures r.raised <==> t.head.HeadNoCredentials? || t.head.HeadRaised? || (r.fetched && FetchEscapes(t))
    ensures r.url.Some? ==> r.url.value == ObjectUrl(bucket, h) && ObjectKey(h) in r.objects
    ensures r.url.None? ==> r.objects == objects
    ensures r.url.Some? && !r.fetched ==> r.objects == objects
    ensures r.fetched <==> !t.head.HeadNoCredentials? && !t.head.HeadRaised?
                           && !(t.head.HeadAnswered? && ObjectKey(h) in objects)
    ensures r.fetched ==> r == FetchAndPut(objects, bucket, h, t)
  {
    match GetExistingS3Url(objects, bucket, h, t.head)
    case LookupNoCredentials => ItemResult(None, objects, false, true)
    case LookupRaised => ItemResult(None, objects, false, true)
    case Exists(url) => ItemResult(Some(url), objects, false, false)
    case Absent => FetchAndPut(objects, bucket, h, t)
  }

  /** One item of `upload_images`: as `UploadImageSpec`, except that the loop's
      handler turns a credential error of the probe into `None`. */
  function BatchItem(objects: map<string, Bytes>, bucket: string, h: string, t: Transport)
    : (r: ItemResult)
    ensures r.raised <==> t.head.HeadRaised? || (r.fetched && FetchEscapes(t))
    ensures r.url.Some? ==> r.url.value == ObjectUrl(bucket, h) && ObjectKey(h) in r.objects
    ensures r.url.None? ==> r.objects == objects
    ensures r.url.None? && !r.raised ==> Faulty(t)
    ensures r.url.Some? && !r.fetched ==> r.objects == objects
    ensures r.fetched <==> !t.head.HeadNoCredentials? && !t.head.HeadRaised?
                           && !(t.head.HeadAnswered? && ObjectKey(h) in objects)
    ensures r.fetched ==> r == FetchAndPut(objects, bucket, h, t)
  {
    match GetExistingS3Url(objects, bucket, h, t.head)
    case LookupNoCredentials => ItemResult(None, objects, false, false)
    case LookupRaised => ItemResult(None, objects, false, true)
    case Exists(url) => ItemResult(Some(url), objects, false, false)
    case Absent => FetchAndPut(objects, bucket, h, t)
  }

  /** An object that already exists is served without a download or a put. */
  lemma ExistingObjectShortCircuits(objects: map<string, Bytes>, bucket: string, h: string, t: Transport)
    requires t.head.HeadAnswered? && ObjectKey(h) in objects
    ensures UploadImageSpec(objects, bucket, h, t) == ItemResult(Some(ObjectUrl(bucket, h)), objects, false, false)
    ensures BatchItem(objects, bucket, h, t) == ItemResult(Some(ObjectUrl(bucket, h)), objects, false, false)
  {
  }

  /** The single and the batch upload agree on every item except one whose
      probe raises a credential error. */
  lemma SingleAgreesWithBatch(objects: map<string, Bytes>, bucket: string, h: string, t: Transport)
    ensures !t.head.HeadNoCredentials? ==> UploadImageSpec(objects, bucket, h, t) == BatchItem(objects, bucket, h, t)
    ensures t.head.HeadNoCredentials? ==>
      UploadImageSpec(objects, bucket, h, t).raised && BatchItem(objects, bucket, h, t).url.None?
  {
  }

  /** Uploading the same image a second time: the second call is served from the
      bucket when its probe is answered, and in every case returns the same URL
      and leaves the same bucket as the first. */
  lemma {:induction false} BatchItemIdempotent(objects: map<string, Bytes>, bucket: string, h: string,
                                               t: Transport, t': Transport)
    ensures var first := BatchItem(objects, bucket, h, t);
            var again := BatchItem(first.objects, bucket, h, t);
            again.url == first.url && again.objects == first.objects && again.raised == first.raised
    ensures var first := BatchItem(objects, bucket, h, t);
            first.url.Some? && t'.head.HeadAnswered? ==>
              BatchItem(first.objects, bucket, h, t') == ItemResult(first.url, first.objects, false, false)
  {
    var first := BatchItem(objects, bucket, h, t);
    if t.head.HeadAnswered? && ObjectKey(h) !in objects && first.url.Some? {
      assert ObjectKey(h) in first.objects;
    }
  }

  // ---------------------------------------------------------------------------
  // `upload_images`
  // ---------------------------------------------------------------------------

  /** The list the batch builds, the per-item download flags, the bucket, and
      whether an exception escaped (leaving the list unreturned). */
  datatype Batch = Batch(urls: seq<Option<string>>, fetched: seq<bool>, objects: map<string, Bytes>, raised: bool)

  /** The batch after its first `k` items, `env(i)` answering for item `i`. */
  function UploadAll(objects: map<string, Bytes>, bucket: string, hashes: seq<string>,
                     env: nat -> Transport, k: nat): (b: Batch)
    requires k <= |hashes|
    ensures |b.urls| == |b.fetched| <= k
    ensures !b.raised ==> |b.urls| == k
    ensures b.raised ==> |b.urls| < k && Escapes(env(|b.urls|))
    decreases k
  {
    if k == 0 then Batch([], [], objects, false)
    else
      var prev := UploadAll(objects, bucket, hashes, env, k - 1);
      if prev.raised then prev
      else
        var item := BatchItem(prev.objects, bucket, hashes[k - 1], env(k - 1));
        if item.raised then Batch(prev.urls, prev.fetched, prev.objects, true)
        else Batch(prev.urls + [item.url], prev.fetched + [item.fetched], item.objects, false)
  }

  /** One more item: the batch extends by what `BatchItem` answers against the
      bucket left so far. */
  lemma UploadAllStep(objects: map<string, Bytes>, bucket: string, hashes: seq<string>,
                      env: nat -> Transport, i: nat)
    requires i < |hashes| && !UploadAll(objects, bucket, hashes, env, i).raised
    ensures var prev := UploadAll(objects, bucket, hashes, env, i);
            var item := BatchItem(prev.objects, bucket, hashes[i], env(i));
            UploadAll(objects, bucket, hashes, env, i + 1)
            == if item.raised then Batch(prev.urls, prev.fetched, prev.objects, true)
               else Batch(prev.urls + [item.url], prev.fetched + [item.fetched], item.objects, false)
  {
  }

  /** Once an exception escapes, later items are never attempted. */
  lemma {:induction false} UploadAllRaisedStays(objects: map<string, Bytes>, bucket: string,
                                                hashes: seq<string>, env: nat -> Transport, j: nat, k: nat)
    requires j <= k <= |hashes|
    requires UploadAll(objects, bucket, hashes, env, j).raised
    ensures UploadAll(objects, bucket, hashes, env, k) == UploadAll(objects, bucket, hashes, env, j)
    decreases k
  {
    if j < k {
      UploadAllRaisedStays(objects, bucket, hashes, env, j, k - 1);
    }
  }

  /** Results are appended in input order: a shorter run's list is a prefix of a
      longer run's, and the bucket never loses a key. */
  lemma {:induction false} UploadAllPrefix(objects: map<string, Bytes>, bucket: string,
                                           hashes: seq<string>, env: nat -> Transport, j: nat, k: nat)
    requires j <= k <= |hashes|
    ensures UploadAll(objects, bucket, hashes, env, j).urls <= UploadAll(objects, bucket, hashes, env, k).urls
    ensures UploadAll(objects, bucket, hashes, env, j).fetched <= UploadAll(objects, bucket, hashes, env, k).fetched
    ensures UploadAll(objects, bucket, hashes, env, j).objects.Keys <= UploadAll(objects, bucket, hashes, env, k).objects.Keys
    decreases k
  {
    if j < k {
      UploadAllPrefix(objects, bucket, hashes, env, j, k - 1);
      var prev := UploadAll(objects, bucket, hashes, env, k - 1);
      var cur := UploadAll(objects, bucket, hashes, env, k);
      assert prev.urls <= cur.urls && prev.fetched <= cur.fetched && prev.objects.Keys <= cur.objects.Keys;
    }
  }

  /** Item `i` of the list is what `BatchItem` answers for hash `i` against the
      bucket left by the items before it. */
  lemma UploadAllItem(objects: map<string, Bytes>, bucket: string, hashes: seq<string>,
                      env: nat -> Transport, k: nat, i: nat)
    requires k <= |hashes| && i < |UploadAll(objects, bucket, hashes, env, k).urls|
    ensures var item := BatchItem(UploadAll(objects, bucket, hashes, env, i).objects, bucket, hashes[i], env(i));
            !UploadAll(objects, bucket, hashes, env, i).raised
            && UploadAll(objects, bucket, hashes, env, k).urls[i] == item.url
            && UploadAll(objects, bucket, hashes, env, k).fetched[i] == item.fetched
            && UploadAll(objects, bucket, hashes, env, i + 1).objects == item.objects
  {
    var bi := UploadAll(objects, bucket, hashes, env, i);
    var bi1 := UploadAll(objects, bucket, hashes, env, i + 1);
    var bk := UploadAll(objects, bucket, hashes, env, k);
    if bi1.raised {
      UploadAllRaisedStays(objects, bucket, hashes, env, i + 1, k);
      assert false;
    }
    assert !bi.raised;
    UploadAllStep(objects, bucket, hashes, env, i);
    UploadAllPrefix(objects, bucket, hashes, env, i + 1, k);
    assert bk.urls[i] == bi1.urls[i];
    assert bk.fetched[i] == bi1.fetched[i];
  }

  /** Every URL in the list is the canonical URL of its own item's hash, and
      its object is in the bucket afterwards; `None` appears only for an item
      whose transport failed. */
  lemma UploadAllUrls(objects: map<string, Bytes>, bucket: string, hashes: seq<string>,
                      env: nat -> Transport, k: nat, i: nat)
    requires k <= |hashes| && i < |UploadAll(objects, bucket, hashes, env, k).urls|
    ensures UploadAll(objects, bucket, hashes, env, k).urls[i].Some? ==>
      UploadAll(objects, bucket, hashes, env, k).urls[i].value == ObjectUrl(bucket, hashes[i])
      && ObjectKey(hashes[i]) in UploadAll(objects, bucket, hashes, env, k).objects
    ensures UploadAll(objects, bucket, hashes, env, k).urls[i].None? ==> Faulty(env(i))
    ensures UploadAll(objects, bucket, hashes, env, k).urls[i].None? <==>
      env(i).head.HeadNoCredentials?
      || (UploadAll(objects, bucket, hashes, env, k).fetched[i]
          && !(env(i).fetch.HttpResponse? && env(i).fetch.status == 200 && env(i).put.PutDone?))
  {
    UploadAllItem(objects, bucket, hashes, env, k, i);
    UploadAllPrefix(objects, bucket, hashes, env, i + 1, k);
  }

  /** A hash repeated later in the batch is served from the bucket: no second
      download or put, and the same URL as its first successful occurrence. */
  lemma RepeatedHashNotRefetched(objects: map<string, Bytes>, bucket: string, hashes: seq<string>,
                                 env: nat -> Transport, k: nat, i: nat, j: nat)
    requires k <= |hashes| && i < j < |UploadAll(objects, bucket, hashes, env, k).urls|
    requires hashes[i] == hashes[j] && env(j).head.HeadAnswered?
    requires UploadAll(objects, bucket, hashes, env, k).urls[i].Some?
    ensures UploadAll(objects, bucket, hashes, env, k).urls[j] == UploadAll(objects, bucket, hashes, env, k).urls[i]
    ensures !UploadAll(objects, bucket, hashes, env, k).fetched[j]
  {
    var key := ObjectKey(hashes[i]);
    UploadAllItem(objects, bucket, hashes, env, k, i);
    assert key in UploadAll(objects, bucket, hashes, env, i + 1).objects;
    UploadAllPrefix(objects, bucket, hashes, env, i + 1, j);
    var before := UploadAll(objects, bucket, hashes, env, j).objects;
    assert key in before;
    ExistingObjectShortCircuits(before, bucket, hashes[j], env(j));
    UploadAllItem(objects, bucket, hashes, env, k, j);
  }

  /** Only keys of downloaded items change, and only keys of items in the list. */
  lemma {:induction false} UploadAllFrame(objects: map<string, Bytes>, bucket: string, hashes: seq<string>,
                                          env: nat -> Transport, k: nat)
    requires k <= |hashes|
    ensures var b := UploadAll(objects, bucket, hashes, env, k);
            forall key :: key in b.objects && !(key in objects && b.objects[key] == objects[key]) ==>
              exists i :: 0 <= i < |b.urls| && b.fetched[i] && key == ObjectKey(hashes[i])
    decreases k
  {
    if k > 0 {
      UploadAllFrame(objects, bucket, hashes, env, k - 1);
    }
  }

  // ---------------------------------------------------------------------------
  // The bucket and the manager
  // ---------------------------------------------------------------------------

  /** A string or a list of strings, as `upload_images` accepts either. */
  datatype StrOrList = Single(s: string) | Many(items: seq<string>)

  /** A lone string is wrapped into a one-element list. */
  function AsList(x: StrOrList): (r: seq<string>)
    ensures x.Single? ==> r == [x.s]
    ensures x.Many? ==> r == x.items
  {
    match x
    case Single(s) => [s]
    case Many(items) => items
  }

  /** The objects of the configured bucket. */
  class Bucket {
    const name: string
    var objects: map<string, Bytes>

    constructor (name: string, objects: map<string, Bytes>)
      ensures this.name == name && this.objects == objects
    {
      this.name := name;
      this.objects := objects;
    }
  }

  class S3Manager {
    const bucket: Bucket

    constructor (bucket: Bucket)
      ensures this.bucket == bucket
    {
      this.bucket := bucket;
    }

    /** `upload_image`: returns the object's URL, or `None` on a failed download
        or put; `raised` reports an exception escaping the call. */
    method UploadImage(imageUrl: string, h: string, t: Transport) returns (url: Option<string>, raised: bool)
      modifies bucket
      ensures var r := UploadImageSpec(old(bucket.objects), bucket.name, h, t);
              url == r.url && raised == r.raised && bucket.objects == r.objects
    {
      var existing := GetExistingS3Url(bucket.objects, bucket.name, h, t.head);
      if existing.LookupNoCredentials? || existing.LookupRaised? {
        return None, true;
      }
      if existing.Exists? {
        return Some(existing.url), false;
      }
      match t.fetch {
        case FetchRaised =>
          return None, true;
        case HttpResponse(status, content) =>
          if status != 200 {
            return None, false;
          }
          var key := ObjectKey(h);
          if t.put.PutRaised? {
            return None, true;
          }
          if !t.put.PutDone? {
            return None, false;
          }
          bucket.objects := bucket.objects[key := content];
          url, raised := Some(ObjectUrl(bucket.name, h)), false;
      }
    }

    /** The body of `upload_images`'s loop for one (image URL, hash) pair: the
        handler turns a credential error into `None`; `raised` reports an
        exception that escapes the loop. */
    method UploadBatchItem(h: string, t: Transport) returns (url: Option<string>, raised: bool)
      modifies bucket
      ensures var r := BatchItem(old(bucket.objects), bucket.name, h, t);
              url == r.url && raised == r.raised && bucket.objects == r.objects
    {
      var existing := GetExistingS3Url(bucket.objects, bucket.name, h, t.head);
      if existing.LookupNoCredentials? {
        // the credential error is caught by the loop's handler
        return None, false;
      }
      if existing.Exists? {
        return Some(existing.url), false;
      }
      if existing.LookupRaised? || FetchEscapes(t) {
        // `head_object`, `requests.get` or `put_object` raised past the handlers
        return None, true;
      }
      if t.fetch.status != 200 || !t.put.PutDone? {
        return None, false;
      }
      bucket.objects := bucket.objects[ObjectKey(h) := t.fetch.content];
      url, raised := Some(ObjectUrl(bucket.name, h)), false;
    }

    /** `upload_images`: one result per zipped (image URL, hash) pair, in order,
        `None` for a failed item. A raising download, or a `head_object` or
        `put_object` exception other than `ClientError` and
        `NoCredentialsError`, escapes the whole call. */
    method UploadImages(imageUrls: StrOrList, hashes: StrOrList, env: nat -> Transport)
      returns (urls: seq<Option<string>>, raised: bool)
      modifies bucket
      ensures var b := UploadAll(old(bucket.objects), bucket.name, AsList(hashes), env,
                                 Min(|AsList(imageUrls)|, |AsList(hashes)|));
              urls == b.urls && raised == b.raised && bucket.objects == b.objects
    {
      var images := AsList(imageUrls);
      var hs := AsList(hashes);
      var n := Min(|images|, |hs|);
      ghost var start := bucket.objects;
      ghost var fetched: seq<bool> := [];
      urls, raised := [], false;
      var i := 0;
      while i < n
        invariant 0 <= i <= n
        invariant UploadAll(start, bucket.name, hs, env, i) == Batch(urls, fetched, bucket.objects, false)
      {
        UploadAllStep(start, bucket.name, hs, env, i);
        ghost var item := BatchItem(bucket.objects, bucket.name, hs[i], env(i));
        var url, itemRaised := UploadBatchItem(hs[i], env(i));
        if itemRaised {
          raised := true;
          UploadAllRaisedStays(start, bucket.name, hs, env, i + 1, n);
          return;
        }
        urls, fetched := urls + [url], fetched + [item.fetched];
        i := i + 1;
      }
    }
  }
}
