/**
 * The metadata store manager of src/aws/dynamoDB/dynamo_db.py.
 *
 * The table is a class whose field maps the partition key (the content hash) to
 * the item stored under it; `DynamoDBManager` holds a reference to it. How each
 * call goes is a parameter: it succeeds, fails with a `ClientError` (which the
 * manager logs and swallows), or raises any other exception (a connection error,
 * a timeout), which escapes the manager.
 */
module DynamoDb {
  import opened Common

  /** The four string attributes of an item. */
  datatype ProductMetaData = ProductMetaData(asin: string, hash: string, s3Url: string, imageTitle: string)

  /** How one remote call went. */
  datatype Reply = Done | ClientError | Raised

  /** Every item sits under its own `hash` attribute. */
  ghost predicate KeyedByHash(items: map<string, ProductMetaData>)
  {
    forall h :: h in items ==> items[h].hash == h
  }

  /** The table after `put_item`: the item replaces whatever was under its hash,
      with no existence check; a failed call changes nothing. */
  function PutItem(items: map<string, ProductMetaData>, m: ProductMetaData, reply: Reply)
    : (r: map<string, ProductMetaData>)
    ensures !reply.Done? ==> r == items
    ensures reply.Done? ==> m.hash in r && r[m.hash] == m
    ensures OnlyChangedAt(items, r, m.hash)
    ensures KeyedByHash(items) ==> KeyedByHash(r)
  {
    if reply.Done? then items[m.hash := m] else items
  }

  /** What `get_metadata` returns for `h`: the stored item, or `None` when the
      hash is absent or the call fails (a raising call returns nothing). */
  function GetItem(items: map<string, ProductMetaData>, h: string, reply: Reply)
    : (r: Option<ProductMetaData>)
    ensures r.Some? <==> reply.Done? && h in items
    ensures r.Some? ==> r.value == items[h]
    ensures r.Some? && KeyedByHash(items) ==> r.value.hash == h
  {
    if !reply.Done? || h !in items then None
    else
      var item := items[h];
      Some(ProductMetaData(item.asin, item.hash, item.s3Url, item.imageTitle))
  }

  /** Reading back an inserted item returns exactly its four attributes. */
  lemma PutThenGet(items: map<string, ProductMetaData>, m: ProductMetaData)
    ensures GetItem(PutItem(items, m, Done), m.hash, Done) == Some(m)
  {
  }

  /** Of two inserts under one hash, the second wins. */
  lemma LastWriteWins(items: map<string, ProductMetaData>, m1: ProductMetaData, m2: ProductMetaData)
    requires m1.hash == m2.hash
    ensures GetItem(PutItem(PutItem(items, m1, Done), m2, Done), m1.hash, Done) == Some(m2)
  {
  }

  /** Inserting under one hash leaves what every other hash reads unchanged. */
  lemma PutLeavesOtherKeys(items: map<string, ProductMetaData>, m: ProductMetaData, reply: Reply,
                           h: string, getReply: Reply)
    requires h != m.hash
    ensures GetItem(PutItem(items, m, reply), h, getReply) == GetItem(items, h, getReply)
  {
  }

  /** The items of the configured table. */
  class Table {
    var items: map<string, ProductMetaData>

    constructor (items: map<string, ProductMetaData>)
      ensures this.items == items
    {
      this.items := items;
    }
  }

  class DynamoDBManager {
    const table: Table

    constructor (table: Table)
      ensures this.table == table
    {
      this.table := table;
    }

    /** `insert_metadata`: an unconditional put keyed by hash; a `ClientError`
        is logged and swallowed, and `raised` reports any other exception. */
    method InsertMetadata(m: ProductMetaData, reply: Reply) returns (raised: bool)
      modifies table
      ensures table.items == PutItem(old(table.items), m, reply)
      ensures raised <==> reply.Raised?
    {
      if reply.Done? {
        table.items := table.items[m.hash := m];
      }
      raised := reply.Raised?;
    }

    /** `get_metadata`: the four attributes stored under `h`, or `None`;
        `raised` reports an exception other than `ClientError`. */
    method GetMetadata(h: string, reply: Reply) returns (r: Option<ProductMetaData>, raised: bool)
      ensures r == GetItem(table.items, h, reply)
      ensures raised <==> reply.Raised?
    {
      raised := reply.Raised?;
      if !reply.Done? {
        return None, raised;
      }
      if h in table.items {
        var item := table.items[h];
        r := Some(ProductMetaData(item.asin, item.hash, item.s3Url, item.imageTitle));
      } else {
        r := None;
      }
    }
  }

  /** A client of the manager: an insert is read back, and a second insert under
      the same hash replaces the first. */
  method InsertTwiceThenGet(manager: DynamoDBManager, m1: ProductMetaData, m2: ProductMetaData)
    returns (first: Option<ProductMetaData>, second: Option<ProductMetaData>)
    requires m1.hash == m2.hash
    modifies manager.table
    ensures first == Some(m1) && second == Some(m2)
  {
    var raised := manager.InsertMetadata(m1, Done);
    first, raised := manager.GetMetadata(m1.hash, Done);
    raised := manager.InsertMetadata(m2, Done);
    second, raised := manager.GetMetadata(m2.hash, Done);
  }
}
