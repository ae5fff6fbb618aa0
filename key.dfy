/** Keys, the per-record sparse store, and the header registry (`KVs`). */
module Keys {
  import opened Wrappers
  import opened Decimal
  import opened StringOrder
  import opened Values

  /** `KeyString.Int()`: the first 8 bytes of the MD5 digest of the path. The model does not
      compute MD5; every store is given the digest function and nothing is assumed about it. */
  type Digest = string -> Uint64

  /** The two `KeyType` implementations. */
  datatype KeyType = KeyAutoIncrementID(id: Uint64) | KeyString(path: string)
  {
    /** The encoded header text: a string key's own path, and an identifier's decimal (which
        `AutoIDStringParses` reads back). */
    function String(): string
    {
      match this
      case KeyAutoIncrementID(id) => Itoa(ToInt64(id))
      case KeyString(p) => p
    }

    /** The integer a record is keyed by: an identifier is its own integer, a string key
        hashes its path. */
    function Int(digest: Digest): Uint64
    {
      match this
      case KeyAutoIncrementID(id) => id
      case KeyString(p) => digest(p)
    }
  }

  /** newKeyAuto: the identifier after `max`, with uint64 wrap-around. */
  function NewKeyAuto(max: Uint64): (k: KeyType)
    ensures k.KeyAutoIncrementID?
    ensures max < TWO_64 - 1 ==> k.id == max + 1
    ensures max == TWO_64 - 1 ==> k.id == 0
  {
    KeyAutoIncrementID((max + 1) % TWO_64)
  }

  /** newKeyString */
  function NewKeyString(s: string): (k: KeyType)
    ensures k.String() == s
  {
    KeyString(s)
  }

  /** An auto-increment key is its own integer, and distinct identifiers encode to distinct text. */
  lemma AutoIDEncodingInjective(a: Uint64, b: Uint64, digest: Digest)
    ensures KeyAutoIncrementID(a).Int(digest) == a
    ensures a != b ==> KeyAutoIncrementID(a).String() != KeyAutoIncrementID(b).String()
  {
    ItoaInjective(ToInt64(a), ToInt64(b));
  }

  /** An auto-increment key's text reads back, through Go's `int` conversion, as its identifier. */
  lemma AutoIDStringParses(id: Uint64)
    ensures ParseInt(KeyAutoIncrementID(id).String()) == Some(ToInt64(id) as int)
    ensures id < TWO_63 ==> ParseInt(KeyAutoIncrementID(id).String()) == Some(id as int)
  {
    ItoaRoundTrip(ToInt64(id));
  }

  /** WrapperValue: a stored leaf and whether it is still unread. */
  datatype WrapperValue = WrapperValue(isValid: bool, value: Leaf)

  type Store = map<Uint64, WrapperValue>

  /** KeyValue.Set on the map: the slot for `i` holds `v`, unread. */
  function StoreSet(m: Store, i: Uint64, v: Leaf): Store
  {
    m[i := WrapperValue(true, v)]
  }

  /** KeyValue.Get on the map: an unread slot yields its leaf and becomes read; anything else misses. */
  function StoreGet(m: Store, i: Uint64): (Option<Leaf>, Store)
  {
    if i !in m || !m[i].isValid then (None, m)
    else (Some(m[i].value), m[i := m[i].(isValid := false)])
  }

  /** A leaf that was set is read back once; the second read misses. */
  lemma SetThenGetOnce(m: Store, i: Uint64, v: Leaf)
    ensures StoreGet(StoreSet(m, i, v), i).0 == Some(v)
    ensures StoreGet(StoreGet(StoreSet(m, i, v), i).1, i).0 == None
  {}

  /** `Get` never adds an entry, and a miss changes nothing. */
  lemma GetAddsNothing(m: Store, i: Uint64)
    ensures StoreGet(m, i).1.Keys == m.Keys
    ensures StoreGet(m, i).0 == None ==> StoreGet(m, i).1 == m
    ensures StoreGet(m, i).0.Some? <==> i in m && m[i].isValid
  {}

  /** `Len` counts the distinct integers ever set: `Set` adds one only for a new integer and `Get` removes none. */
  lemma {:induction false} LenCountsSetKeys(m: Store, i: Uint64, v: Leaf)
    ensures |StoreSet(m, i, v)| == if i in m then |m| else |m| + 1
    ensures |StoreGet(m, i).1| == |m|
  {
    if i in m {
      assert StoreSet(m, i, v).Keys == m.Keys;
    } else {
      assert StoreSet(m, i, v).Keys == m.Keys + {i};
    }
    assert StoreGet(m, i).1.Keys == m.Keys;
  }

  /** KeyValue: one record's sparse row. */
  class KeyValue {
    const digest: Digest
    var kv: Store

    /** newKeyValue(preSize); the size is a capacity hint only. */
    constructor (preSize: int, digest: Digest)
      ensures this.digest == digest && kv == map[]
    {
      this.digest := digest;
      kv := map[];
    }

    method Set(k: KeyType, v: Leaf)
      modifies this
      ensures kv == StoreSet(old(kv), k.Int(digest), v)
    {
      kv := kv[k.Int(digest) := WrapperValue(true, v)];
    }

    method Get(k: KeyType) returns (value: Option<Leaf>)
      modifies this
      ensures (value, kv) == StoreGet(old(kv), k.Int(digest))
    {
      var i := k.Int(digest);
      if i !in kv || !kv[i].isValid {
        return None;
      }
      kv := kv[i := kv[i].(isValid := false)];
      value := Some(kv[i].value);
    }

    /** The number of integers stored, read or not. */
    function Len(): (n: nat)
      reads this
      ensures n == |kv.Keys|
    {
      |kv|
    }
  }

  /** The maps of a list of records. */
  ghost function Maps(rs: seq<KeyValue>): (ms: seq<Store>)
    reads set r | r in rs
    ensures |ms| == |rs| && forall i | 0 <= i < |rs| :: ms[i] == rs[i].kv
  {
    if rs == [] then [] else Maps(rs[..|rs| - 1]) + [rs[|rs| - 1].kv]
  }

  /** `m[k]`. Every listing the model takes is of the map's own keys; the path's own string key
      stands in for a key the map lacks, so that listings need no precondition. */
  function ValueAt(m: map<string, KeyType>, k: string): KeyType
  {
    if k in m then m[k] else KeyString(k)
  }

  /** `m[ks[0]], m[ks[1]], ...` */
  function ValuesOf(m: map<string, KeyType>, ks: seq<string>): (r: seq<KeyType>)
    ensures |r| == |ks| && forall i | 0 <= i < |ks| :: r[i] == ValueAt(m, ks[i])
  {
    if ks == [] then [] else ValuesOf(m, ks[..|ks| - 1]) + [ValueAt(m, ks[|ks| - 1])]
  }

  /** `ks[0].String(), ks[1].String(), ...` */
  function StringsOf(ks: seq<KeyType>): (r: seq<string>)
    ensures |r| == |ks| && forall i | 0 <= i < |ks| :: r[i] == ks[i].String()
  {
    if ks == [] then [] else StringsOf(ks[..|ks| - 1]) + [ks[|ks| - 1].String()]
  }

  /** The sort key of `GetSortMappingValues`. */
  function KeyText(k: KeyType): string { k.String() }

  /** The values of a mapping, listed in the ascending order of their (unencoded) keys. */
  ghost function MappingValues(m: map<string, KeyType>): seq<KeyType>
  {
    ValuesOf(m, SortedSet(m.Keys))
  }

  /** The encoded header a mapping determines: its values' texts, ascending. */
  ghost function EncodedHeader(m: map<string, KeyType>): (h: seq<string>)
    ensures Sorted(h)
  {
    SortBy(StringsOf(MappingValues(m)), Id)
  }

  lemma ValuesConcat(m: map<string, KeyType>, p: seq<string>, q: seq<string>)
    ensures ValuesOf(m, p + q) == ValuesOf(m, p) + ValuesOf(m, q)
  {}

  lemma StringsConcat(p: seq<KeyType>, q: seq<KeyType>)
    ensures StringsOf(p + q) == StringsOf(p) + StringsOf(q)
  {}

  /** Where the last element of `a` sits in a rearrangement `b`, and what remains on each side. */
  lemma MatchLast<T>(a: seq<T>, b: seq<T>) returns (j: nat)
    requires a != [] && multiset(a) == multiset(b)
    ensures j < |b| && b[j] == a[|a| - 1]
    ensures b == b[..j] + [b[j]] + b[j + 1..]
    ensures multiset(a[..|a| - 1]) == multiset(b[..j] + b[j + 1..])
  {
    var x := a[|a| - 1];
    assert x in multiset(b);
    j :| 0 <= j < |b| && b[j] == x;
    var b1, b2 := b[..j], b[j + 1..];
    assert b == b1 + [x] + b2;
    assert a == a[..|a| - 1] + [x];
    assert multiset(b) == multiset(b1) + multiset{x} + multiset(b2);
    assert multiset(a[..|a| - 1]) == multiset(a) - multiset{x};
    assert multiset(b1 + b2) == multiset(b1) + multiset(b2);
  }

  /** Two listings of the same keys give the same values, up to order. */
  lemma {:induction false} ValuesOfSameKeys(m: map<string, KeyType>, a: seq<string>, b: seq<string>)
    requires multiset(a) == multiset(b)
    ensures multiset(ValuesOf(m, a)) == multiset(ValuesOf(m, b))
    decreases |a|
  {
    if a != [] {
      var a', x := a[..|a| - 1], a[|a| - 1];
      var j := MatchLast(a, b);
      var b1, b2 := b[..j], b[j + 1..];
      ValuesOfSameKeys(m, a', b1 + b2);
      ValuesSplit(m, a', x, b1, b2);
      MultisetSplice(ValuesOf(m, a'), ValueAt(m, x), ValuesOf(m, b1), ValuesOf(m, b2));
    }
  }

  lemma ValuesSplit(m: map<string, KeyType>, a: seq<string>, x: string, b1: seq<string>, b2: seq<string>)
    ensures ValuesOf(m, a + [x]) == ValuesOf(m, a) + [ValueAt(m, x)]
    ensures ValuesOf(m, b1 + b2) == ValuesOf(m, b1) + ValuesOf(m, b2)
    ensures ValuesOf(m, b1 + [x] + b2) == ValuesOf(m, b1) + [ValueAt(m, x)] + ValuesOf(m, b2)
  {
    ValuesConcat(m, b1 + [x], b2);
    ValuesConcat(m, b1, [x]);
    ValuesConcat(m, b1, b2);
  }

  lemma StringsSplit(a: seq<KeyType>, x: KeyType, b1: seq<KeyType>, b2: seq<KeyType>)
    ensures StringsOf(a + [x]) == StringsOf(a) + [x.String()]
    ensures StringsOf(b1 + b2) == StringsOf(b1) + StringsOf(b2)
    ensures StringsOf(b1 + [x] + b2) == StringsOf(b1) + [x.String()] + StringsOf(b2)
  {
    StringsConcat(b1 + [x], b2);
    StringsConcat(b1, [x]);
    StringsConcat(b1, b2);
  }

  /** Putting the same element into both of two rearrangements keeps them rearrangements. */
  lemma MultisetSplice<T>(p: seq<T>, x: T, q1: seq<T>, q2: seq<T>)
    requires multiset(p) == multiset(q1 + q2)
    ensures multiset(p + [x]) == multiset(q1 + [x] + q2)
  {
    calc {
      multiset(q1 + [x] + q2);
      multiset(q1) + multiset{x} + multiset(q2);
      multiset(q1 + q2) + multiset{x};
      multiset(p + [x]);
    }
  }

  /** Texts of values that agree up to order agree up to order. */
  lemma {:induction false} StringsOfSameValues(a: seq<KeyType>, b: seq<KeyType>)
    requires multiset(a) == multiset(b)
    ensures multiset(StringsOf(a)) == multiset(StringsOf(b))
    decreases |a|
  {
    if a != [] {
      var a', x := a[..|a| - 1], a[|a| - 1];
      var j := MatchLast(a, b);
      var b1, b2 := b[..j], b[j + 1..];
      assert a == a' + [x];
      StringsOfSameValues(a', b1 + b2);
      StringsSplit(a', x, b1, b2);
      MultisetSplice(StringsOf(a'), x.String(), StringsOf(b1), StringsOf(b2));
    }
  }

  /** The values sorted by text, read as texts, are exactly the encoded header: column `i` of
      the header is the text of the `i`-th value, the alignment `WriteCSV` relies on. */
  lemma SortedValuesMatchEncoded(m: map<string, KeyType>, vs: seq<KeyType>)
    requires SortedBy(vs, KeyText) && multiset(vs) == multiset(MappingValues(m))
    ensures StringsOf(vs) == EncodedHeader(m)
  {
    StringsOfSameValues(vs, MappingValues(m));
    assert Sorted(StringsOf(vs)) by {
      forall i, j | 0 <= i < j < |vs| ensures Leq(Id(StringsOf(vs)[i]), Id(StringsOf(vs)[j])) {
        assert Leq(KeyText(vs[i]), KeyText(vs[j]));
      }
    }
    SortedUnique(StringsOf(vs), EncodedHeader(m));
  }

  /** The registry of one conversion: the pre-allocated records, the path-to-key mapping and
      the two cached sorted header lists. */
  class KVs {
    const digest: Digest
    const preSize: int
    var kvs: seq<KeyValue>
    var mapping: map<string, KeyType>
    var encodeHeaders: seq<string>
    var unEncodeHeaders: seq<string>

    /** Every record keys its leaves with this registry's digest, and no record is listed twice. */
    ghost predicate Valid()
      reads this
    {
      (forall i | 0 <= i < |kvs| :: kvs[i].digest == digest) &&
      (forall i, j | 0 <= i < j < |kvs| :: kvs[i] != kvs[j])
    }

    /** The contents of the records, in order. */
    ghost function Records(): seq<Store>
      reads this, set r | r in kvs
    {
      Maps(kvs)
    }

    /** NewKVs(size, preMappingSize): `size` fresh empty records, an empty mapping, empty caches.
        Go's `make` panics on a negative size or capacity. */
    constructor (size: int, preMappingSize: int, digest: Digest)
      requires size >= 0 && preMappingSize >= 0
      ensures Valid() && this.digest == digest && preSize == size
      ensures |kvs| == size && Records() == seq(size, _ => map[])
      ensures forall i | 0 <= i < |kvs| :: fresh(kvs[i])
      ensures mapping == map[] && encodeHeaders == [] && unEncodeHeaders == []
    {
      this.digest := digest;
      preSize := size;
      kvs := [];
      mapping := map[];
      encodeHeaders := [];
      unEncodeHeaders := [];
      new;
      var i := 0;
      while i < size
        invariant 0 <= i <= size && |kvs| == i
        invariant Valid() && this.digest == digest
        invariant forall j | 0 <= j < i :: fresh(kvs[j]) && kvs[j].kv == map[]
        invariant mapping == map[] && encodeHeaders == [] && unEncodeHeaders == []
      {
        var r := new KeyValue(preMappingSize, digest);
        kvs := kvs + [r];
        i := i + 1;
      }
      assert Records() == seq(size, _ => map[]);
    }

    /** Empties the mapping and both caches; the records stay as they are. */
    method Reset()
      modifies this`mapping, this`encodeHeaders, this`unEncodeHeaders
      ensures mapping == map[] && encodeHeaders == [] && unEncodeHeaders == []
    {
      encodeHeaders := [];
      unEncodeHeaders := [];
      mapping := map[];
    }

    /** getKVElem: Go panics on an index out of range. */
    method GetKVElem(index: int) returns (kv: KeyValue)
      requires 0 <= index < |kvs|
      ensures kv == kvs[index]
    {
      kv := kvs[index];
    }

    /** appendElem: one more record at the end, the earlier ones kept. */
    method AppendElem(kv: KeyValue)
      requires Valid()
      modifies this`kvs
      ensures kvs == old(kvs) + [kv]
      ensures Valid() <==> kv.digest == digest && kv !in old(kvs)
    {
      kvs := kvs + [kv];
      if kv in old(kvs) {
        var j :| 0 <= j < |old(kvs)| && old(kvs)[j] == kv;
        assert kvs[j] == kvs[|kvs| - 1];
        assert !Valid();
      } else if kv.digest != digest {
        assert kvs[|kvs| - 1].digest != digest;
        assert !Valid();
      } else {
        assert forall i | 0 <= i < |old(kvs)| :: kvs[i] == old(kvs)[i];
        assert Valid();
      }
    }

    /** The mapping's values, sorted by their text. */
    method GetSortMappingValues() returns (vs: seq<KeyType>)
      ensures SortedBy(vs, KeyText) && multiset(vs) == multiset(MappingValues(mapping))
    {
      var rest := mapping.Keys;
      ghost var picked: seq<string> := [];
      vs := [];
      while rest != {}
        invariant rest <= mapping.Keys
        invariant multiset(picked) + multiset(rest) == multiset(mapping.Keys)
        invariant forall k | k in picked :: k in mapping
        invariant vs == ValuesOf(mapping, picked)
        decreases |rest|
      {
        var k :| k in rest;
        PickStep(mapping, picked, rest, k);
        vs := vs + [mapping[k]];
        picked := picked + [k];
        rest := rest - {k};
      }
      ValuesOfSameKeys(mapping, picked, SortedSet(mapping.Keys));
      vs := SortBy(vs, KeyText);
    }

    /** The mapping's keys, sorted; computed into the cache when the cache is empty, otherwise
        the cache as it stands, however the mapping has grown since. */
    method GetUnEncodedSortHeader() returns (h: seq<string>)
      modifies this`unEncodeHeaders
      ensures old(unEncodeHeaders) != [] ==> h == unEncodeHeaders == old(unEncodeHeaders)
      ensures old(unEncodeHeaders) == [] ==> h == unEncodeHeaders == SortedSet(mapping.Keys)
    {
      if |unEncodeHeaders| > 0 {
        return unEncodeHeaders;
      }
      var rest := mapping.Keys;
      while rest != {}
        invariant multiset(unEncodeHeaders) + multiset(rest) == multiset(mapping.Keys)
        decreases |rest|
      {
        var k :| k in rest;
        assert multiset(rest) == multiset(rest - {k}) + multiset{k};
        unEncodeHeaders := unEncodeHeaders + [k];
        rest := rest - {k};
      }
      unEncodeHeaders := SortBy(unEncodeHeaders, Id);
      SortedUnique(unEncodeHeaders, SortedSet(mapping.Keys));
      h := unEncodeHeaders;
    }

    /** The texts of the mapping's values, sorted, cached the same way. */
    method GetEncodedSortHeader() returns (h: seq<string>)
      modifies this`encodeHeaders
      ensures old(encodeHeaders) != [] ==> h == encodeHeaders == old(encodeHeaders)
      ensures old(encodeHeaders) == [] ==> h == encodeHeaders == EncodedHeader(mapping)
    {
      if |encodeHeaders| > 0 {
        return encodeHeaders;
      }
      var texts := ValueTexts(mapping);
      encodeHeaders := SortBy(texts, Id);
      h := encodeHeaders;
    }
  }

  /** The texts of a mapping's values, in the map's iteration order; sorted, they are the
      encoded header. */
  method ValueTexts(m: map<string, KeyType>) returns (texts: seq<string>)
    ensures SortBy(texts, Id) == EncodedHeader(m)
  {
    var rest := m.Keys;
    texts := [];
    ghost var picked: seq<string> := [];
    while rest != {}
      invariant rest <= m.Keys
      invariant multiset(picked) + multiset(rest) == multiset(m.Keys)
      invariant forall k | k in picked :: k in m
      invariant texts == StringsOf(ValuesOf(m, picked))
      decreases |rest|
    {
      var k :| k in rest;
      PickStep(m, picked, rest, k);
      texts := texts + [m[k].String()];
      picked := picked + [k];
      rest := rest - {k};
    }
    EncodedFromAnyListing(m, picked);
  }

  /** One pick of the map iteration: the listing grows by the key and its value's text. */
  lemma PickStep(m: map<string, KeyType>, picked: seq<string>, rest: set<string>, k: string)
    requires k in rest && rest <= m.Keys && forall x | x in picked :: x in m
    ensures forall x | x in picked + [k] :: x in m
    ensures multiset(picked + [k]) + multiset(rest - {k}) == multiset(picked) + multiset(rest)
    ensures ValuesOf(m, picked + [k]) == ValuesOf(m, picked) + [m[k]]
    ensures StringsOf(ValuesOf(m, picked + [k])) == StringsOf(ValuesOf(m, picked)) + [m[k].String()]
  {
    ValuesConcat(m, picked, [k]);
    assert multiset(rest) == multiset(rest - {k}) + multiset{k};
  }

  /** Listing the keys in any order, taking the values' texts and sorting them gives the encoded header. */
  lemma EncodedFromAnyListing(m: map<string, KeyType>, ks: seq<string>)
    requires forall k | k in ks :: k in m
    requires multiset(ks) == multiset(m.Keys)
    ensures SortBy(StringsOf(ValuesOf(m, ks)), Id) == EncodedHeader(m)
  {
    ValuesOfSameKeys(m, ks, SortedSet(m.Keys));
    StringsOfSameValues(ValuesOf(m, ks), MappingValues(m));
    SortedUnique(SortBy(StringsOf(ValuesOf(m, ks)), Id), EncodedHeader(m));
  }

  /** The unencoded header lists each path of the mapping exactly once, ascending. */
  lemma UnEncodedHeaderListsEachKeyOnce(m: map<string, KeyType>)
    ensures Sorted(SortedSet(m.Keys))
    ensures forall k :: k in SortedSet(m.Keys) <==> k in m
    ensures forall i, j | 0 <= i < j < |SortedSet(m.Keys)| :: SortedSet(m.Keys)[i] != SortedSet(m.Keys)[j]
    ensures |SortedSet(m.Keys)| == |m|
  {
    SetShapedIsDistinct(SortedSet(m.Keys), m.Keys);
  }
}
