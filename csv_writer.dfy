/** Row assembly: one row per non-empty record, one cell per header key, read through the
    consuming `Get`; and the two-row path-to-key mapping. The csv encoding itself is not modelled:
    the rows are what would be handed to the csv writer. */
module CsvWriting {
  import opened Wrappers
  import opened Decimal
  import opened StringOrder
  import opened Values
  import opened Keys
  import opened Struct2Csv

  /** The cell for one lookup: the rendered leaf on a hit, empty on a miss. */
  function Cell(o: Option<Leaf>, formatFloat: Uint64 -> string): string
  {
    if o.Some? then ToString(o.value, formatFloat) else ""
  }

  /** The cells toRecord produces for a record holding `m`, reading the keys first to last. */
  function Cells(m: Store, header: seq<KeyType>, digest: Digest, formatFloat: Uint64 -> string): seq<string>
    decreases |header|
  {
    if header == [] then []
    else
      var n := header[0].Int(digest);
      [Cell(StoreGet(m, n).0, formatFloat)] + Cells(StoreGet(m, n).1, header[1..], digest, formatFloat)
  }

  /** The record after toRecord has read every key of `header`. */
  function AfterRead(m: Store, header: seq<KeyType>, digest: Digest): Store
    decreases |header|
  {
    if header == [] then m else AfterRead(StoreGet(m, header[0].Int(digest)).1, header[1..], digest)
  }

  /** The rows of WriteCSV's record loop over records holding `recs`: none for an empty record. */
  function Rows(recs: seq<Store>, header: seq<KeyType>, digest: Digest, formatFloat: Uint64 -> string): seq<seq<string>>
    decreases |recs|
  {
    if recs == [] then []
    else
      var last := recs[|recs| - 1];
      Rows(recs[..|recs| - 1], header, digest, formatFloat) + (if |last| > 0 then [Cells(last, header, digest, formatFloat)] else [])
  }

  /** The records after the loop: each non-empty one has had every header key read. */
  function AfterRows(recs: seq<Store>, header: seq<KeyType>, digest: Digest): seq<Store>
  {
    seq(|recs|, i requires 0 <= i < |recs| => if |recs[i]| > 0 then AfterRead(recs[i], header, digest) else recs[i])
  }

  /** One cell per header key; reads only clear flags, so the record's keys stay the same. */
  lemma {:induction false} RecordShape(m: Store, header: seq<KeyType>, digest: Digest, formatFloat: Uint64 -> string)
    ensures |Cells(m, header, digest, formatFloat)| == |header|
    ensures AfterRead(m, header, digest).Keys == m.Keys
    decreases |header|
  {
    if header != [] {
      var n := header[0].Int(digest);
      GetAddsNothing(m, n);
      RecordShape(StoreGet(m, n).1, header[1..], digest, formatFloat);
    }
  }

  /** The integers of `header` are pairwise distinct. */
  ghost predicate DistinctInts(header: seq<KeyType>, digest: Digest)
  {
    forall i, j | 0 <= i < j < |header| :: header[i].Int(digest) != header[j].Int(digest)
  }

  /** When no two header keys share an integer, cell `i` is the unread leaf stored under key
      `i`, rendered, or empty when there is none. */
  lemma {:induction false} RecordCells(m: Store, header: seq<KeyType>, digest: Digest, formatFloat: Uint64 -> string)
    requires DistinctInts(header, digest)
    ensures |Cells(m, header, digest, formatFloat)| == |header|
    ensures forall i | 0 <= i < |header| ::
      Cells(m, header, digest, formatFloat)[i] == Cell(StoreGet(m, header[i].Int(digest)).0, formatFloat)
    decreases |header|
  {
    RecordShape(m, header, digest, formatFloat);
    if header != [] {
      var n := header[0].Int(digest);
      var m1 := StoreGet(m, n).1;
      RecordCells(m1, header[1..], digest, formatFloat);
      forall i | 1 <= i < |header|
        ensures Cells(m, header, digest, formatFloat)[i] == Cell(StoreGet(m, header[i].Int(digest)).0, formatFloat)
      {
        assert header[1..][i - 1] == header[i];
        assert StoreGet(m1, header[i].Int(digest)).0 == StoreGet(m, header[i].Int(digest)).0;
      }
    }
  }

  /** Every header key reads as a miss. */
  ghost predicate AllRead(m: Store, header: seq<KeyType>, digest: Digest)
  {
    forall i | 0 <= i < |header| :: StoreGet(m, header[i].Int(digest)).0 == None
  }

  /** A key that misses before toRecord misses after it. */
  lemma {:induction false} ReadKeepsMisses(m: Store, header: seq<KeyType>, digest: Digest, n: Uint64)
    requires StoreGet(m, n).0 == None
    ensures StoreGet(AfterRead(m, header, digest), n).0 == None
    decreases |header|
  {
    if header != [] {
      ReadKeepsMisses(StoreGet(m, header[0].Int(digest)).1, header[1..], digest, n);
    }
  }

  /** After toRecord every header key reads as a miss. */
  lemma {:induction false} RecordReadsAll(m: Store, header: seq<KeyType>, digest: Digest)
    ensures AllRead(AfterRead(m, header, digest), header, digest)
    decreases |header|
  {
    if header != [] {
      var n := header[0].Int(digest);
      var m1 := StoreGet(m, n).1;
      RecordReadsAll(m1, header[1..], digest);
      ReadKeepsMisses(m1, header[1..], digest, n);
      forall i | 1 <= i < |header|
        ensures StoreGet(AfterRead(m, header, digest), header[i].Int(digest)).0 == None
      {
        assert header[1..][i - 1] == header[i];
      }
    }
  }

  /** On a record where every header key misses, toRecord gives only empty cells. */
  lemma {:induction false} AllReadGivesEmpty(m: Store, header: seq<KeyType>, digest: Digest, formatFloat: Uint64 -> string)
    requires AllRead(m, header, digest)
    ensures forall i | 0 <= i < |Cells(m, header, digest, formatFloat)| :: Cells(m, header, digest, formatFloat)[i] == ""
    decreases |header|
  {
    if header != [] {
      var m1 := StoreGet(m, header[0].Int(digest)).1;
      forall i | 0 <= i < |header[1..]| ensures StoreGet(m1, header[1..][i].Int(digest)).0 == None {
        assert header[1..][i] == header[i + 1];
      }
      AllReadGivesEmpty(m1, header[1..], digest, formatFloat);
    }
  }

  /** Consume-once: a second toRecord of the same record gives `|header|` empty cells. */
  lemma SecondRecordIsEmpty(m: Store, header: seq<KeyType>, digest: Digest, formatFloat: Uint64 -> string)
    ensures var second := Cells(AfterRead(m, header, digest), header, digest, formatFloat);
      |second| == |header| && forall i | 0 <= i < |second| :: second[i] == ""
  {
    RecordReadsAll(m, header, digest);
    RecordShape(AfterRead(m, header, digest), header, digest, formatFloat);
    AllReadGivesEmpty(AfterRead(m, header, digest), header, digest, formatFloat);
  }

  lemma RowsSnoc(recs: seq<Store>, i: nat, header: seq<KeyType>, digest: Digest, formatFloat: Uint64 -> string)
    requires i < |recs|
    ensures Rows(recs[..i + 1], header, digest, formatFloat)
         == Rows(recs[..i], header, digest, formatFloat) + (if |recs[i]| > 0 then [Cells(recs[i], header, digest, formatFloat)] else [])
  {
    assert recs[..i + 1][..i] == recs[..i];
  }

  /** The number of records holding any entry. */
  function CountNonEmpty(recs: seq<Store>): nat
    decreases |recs|
  {
    if recs == [] then 0 else CountNonEmpty(recs[..|recs| - 1]) + (if |recs[|recs| - 1]| > 0 then 1 else 0)
  }

  /** No row for an empty record and one row of `|header|` cells for every other. */
  lemma {:induction false} RowsShape(recs: seq<Store>, header: seq<KeyType>, digest: Digest, formatFloat: Uint64 -> string)
    ensures |Rows(recs, header, digest, formatFloat)| == CountNonEmpty(recs)
    ensures forall r | r in Rows(recs, header, digest, formatFloat) :: |r| == |header|
    decreases |recs|
  {
    if recs != [] {
      RowsShape(recs[..|recs| - 1], header, digest, formatFloat);
      RecordShape(recs[|recs| - 1], header, digest, formatFloat);
    }
  }

  class CSVWriter {
    var recordCache: seq<string>

    /** The cache is empty between rows. */
    ghost predicate Valid()
      reads this
    {
      recordCache == []
    }

    /** NewCSVWriter; the underlying csv writer and its output are not modelled. */
    constructor ()
      ensures Valid()
    {
      recordCache := [];
    }

    /** reset: truncate the cache. */
    method Reset()
      modifies this
      ensures Valid()
    {
      recordCache := [];
    }

    /** toRecord: one cell per header key, appended to the cache, reading `kv` through `Get`. */
    method ToRecord(kv: KeyValue, header: seq<KeyType>, formatFloat: Uint64 -> string) returns (record: seq<string>)
      modifies this, kv
      ensures record == recordCache == old(recordCache) + Cells(old(kv.kv), header, kv.digest, formatFloat)
      ensures kv.kv == AfterRead(old(kv.kv), header, kv.digest)
    {
      var i := 0;
      while i < |header|
        invariant 0 <= i <= |header|
        invariant recordCache + Cells(kv.kv, header[i..], kv.digest, formatFloat)
               == old(recordCache) + Cells(old(kv.kv), header, kv.digest, formatFloat)
        invariant AfterRead(kv.kv, header[i..], kv.digest) == AfterRead(old(kv.kv), header, kv.digest)
      {
        assert header[i..][0] == header[i] && header[i..][1..] == header[i + 1..];
        var value := kv.Get(header[i]);
        if value.Some? {
          recordCache := recordCache + [ToString(value.value, formatFloat)];
        } else {
          recordCache := recordCache + [""];
        }
        i := i + 1;
      }
      record := recordCache;
    }

    /** The record loop of WriteCSV: each record with data gives one row, read under `keys`,
        and the cache is truncated after it. */
    method WriteRows(results: KVs, keys: seq<KeyType>, formatFloat: Uint64 -> string) returns (rows: seq<seq<string>>)
      requires Valid() && results.Valid()
      modifies this, set r | r in results.kvs
      ensures Valid()
      ensures rows == Rows(old(results.Records()), keys, results.digest, formatFloat)
      ensures results.Records() == AfterRows(old(results.Records()), keys, results.digest)
    {
      ghost var recs0 := results.Records();
      ghost var digest := results.digest;
      ghost var after := AfterRows(recs0, keys, digest);
      var records := results.kvs;
      rows := [];
      var i := 0;
      while i < |records|
        invariant 0 <= i <= |records| == |recs0| && Valid()
        invariant forall j | 0 <= j < |recs0| :: records[j].kv == if j < i then after[j] else recs0[j]
        invariant rows == Rows(recs0[..i], keys, digest, formatFloat)
      {
        var result := records[i];
        forall j | 0 <= j < |records| && j != i ensures records[j] != result {
          assert records[j] != records[i];
        }
        RowsSnoc(recs0, i, keys, digest, formatFloat);
        var row := WriteRow(result, keys, formatFloat);
        rows := rows + row;
        i := i + 1;
      }
      assert recs0[..i] == recs0;
    }

    /** One turn of the record loop: a row for a record holding data, which is read under
        `keys`, and the cache truncated after it; nothing for an empty record. */
    method WriteRow(result: KeyValue, keys: seq<KeyType>, formatFloat: Uint64 -> string) returns (row: seq<seq<string>>)
      requires Valid()
      modifies this, result
      ensures Valid()
      ensures |old(result.kv)| > 0 ==> row == [Cells(old(result.kv), keys, result.digest, formatFloat)]
      ensures |old(result.kv)| > 0 ==> result.kv == AfterRead(old(result.kv), keys, result.digest)
      ensures |old(result.kv)| == 0 ==> row == [] && result.kv == old(result.kv)
    {
      if result.Len() > 0 {
        ghost var kv0 := result.kv;
        var record := ToRecord(result, keys, formatFloat);
        assert record == Cells(kv0, keys, result.digest, formatFloat);
        row := [record];
        Reset();
      } else {
        row := [];
      }
    }

    /** WriteCSV: the header row, then the rows of the records, read under the mapping values
        sorted by text. With a fresh header cache, column `i` of every row is read under the
        key whose text is header cell `i`. */
    method WriteCSV(results: KVs, formatFloat: Uint64 -> string) returns (rows: seq<seq<string>>, ghost keys: seq<KeyType>)
      requires Valid() && results.Valid()
      modifies this, results`encodeHeaders, set r | r in results.kvs
      ensures Valid() && |rows| >= 1
      ensures old(results.encodeHeaders) != [] ==> rows[0] == old(results.encodeHeaders)
      ensures old(results.encodeHeaders) == [] ==> rows[0] == EncodedHeader(results.mapping) == StringsOf(keys)
      ensures SortedBy(keys, KeyText) && multiset(keys) == multiset(MappingValues(results.mapping))
      ensures rows[1..] == Rows(old(results.Records()), keys, results.digest, formatFloat)
      ensures results.Records() == AfterRows(old(results.Records()), keys, results.digest)
    {
      ghost var recs0 := results.Records();
      var header := results.GetEncodedSortHeader();
      var oriHeader := results.GetSortMappingValues();
      keys := oriHeader;
      SortedValuesMatchEncoded(results.mapping, oriHeader);
      assert results.Records() == recs0 && results.Valid();
      var body := WriteRows(results, oriHeader, formatFloat);
      assert body == Rows(recs0, keys, results.digest, formatFloat);
      rows := [header] + body;
      assert rows[1..] == body;
    }
  }

  /** WriteMapping: the sorted paths, and under each path the text of its key. Go would fail on
      a cached path that is no longer in the mapping. */
  method WriteMapping(kvs: KVs) returns (rows: seq<seq<string>>)
    requires forall h | h in kvs.unEncodeHeaders :: h in kvs.mapping
    modifies kvs`unEncodeHeaders
    ensures |rows| == 2 && |rows[1]| == |rows[0]|
    ensures old(kvs.unEncodeHeaders) != [] ==> rows[0] == old(kvs.unEncodeHeaders)
    ensures old(kvs.unEncodeHeaders) == [] ==> rows[0] == SortedSet(kvs.mapping.Keys)
    ensures forall i | 0 <= i < |rows[0]| :: rows[0][i] in kvs.mapping && rows[1][i] == kvs.mapping[rows[0][i]].String()
  {
    var mapping := kvs.mapping;
    var header := kvs.GetUnEncodedSortHeader();
    assert forall h | h in header :: h in mapping;
    var values := [];
    var i := 0;
    while i < |header|
      invariant 0 <= i <= |header| && |values| == i
      invariant forall j | 0 <= j < i :: values[j] == mapping[header[j]].String()
    {
      values := values + [mapping[header[i]].String()];
      i := i + 1;
    }
    rows := [header, values];
  }

  /** With original-string keys the mapping row repeats the header. */
  lemma MappingRowOfSelfKeyed(m: map<string, KeyType>, header: seq<string>)
    requires forall p | p in m :: m[p] == KeyString(p)
    requires forall h | h in header :: h in m
    ensures StringsOf(ValuesOf(m, header)) == header
  {
    var vs := ValuesOf(m, header);
    forall i | 0 <= i < |header| ensures StringsOf(vs)[i] == header[i] {
      assert vs[i] == KeyString(header[i]);
    }
  }
}
