/** The converter: option loading, the flattening methods (which run over a value and write
    through `set` into the registry and the current record), and `Convert`'s dispatch. */
module Struct2Csv {
  import opened Wrappers
  import opened Decimal
  import opened Values
  import opened Keys
  import opened HeaderConv
  import opened PathBuilding
  import opened FlattenSpec

  datatype Options = Options(resultCap: int, isObjArray: bool, strBuilderCap: int, rowSize: int)

  /** defaultOpts */
  const DefaultOptions: Options := Options(50, true, 100, 18000)

  /** The `Option` closures, as data. */
  datatype Setting =
    | WithOptions(options: Options)
    | WithResultCap(resultCap: int)
    | WithIsObjArray(isObjArray: bool)
    | WithStrBuilderCap(strBuilderCap: int)
    | WithRowSize(rowSize: int)

  /** Running one option on the options: it sets its own field, or all of them for
      `WithOptions`, and leaves the others. */
  function Apply(o: Options, s: Setting): (r: Options)
    ensures s.WithOptions? ==> r == s.options
    ensures s.WithResultCap? ==> r.resultCap == s.resultCap && r.(resultCap := o.resultCap) == o
    ensures s.WithIsObjArray? ==> r.isObjArray == s.isObjArray && r.(isObjArray := o.isObjArray) == o
    ensures s.WithStrBuilderCap? ==> r.strBuilderCap == s.strBuilderCap && r.(strBuilderCap := o.strBuilderCap) == o
    ensures s.WithRowSize? ==> r.rowSize == s.rowSize && r.(rowSize := o.rowSize) == o
  {
    match s
    case WithOptions(x) => x
    case WithResultCap(p) => o.(resultCap := p)
    case WithIsObjArray(p) => o.(isObjArray := p)
    case WithStrBuilderCap(p) => o.(strBuilderCap := p)
    case WithRowSize(p) => o.(rowSize := p)
  }

  /** Running the options first to last: the last one runs on what all the others made. */
  function ApplyAll(o: Options, ss: seq<Setting>): (r: Options)
    ensures ss == [] ==> r == o
    ensures ss != [] ==> r == Apply(ApplyAll(o, ss[..|ss| - 1]), ss[|ss| - 1])
    decreases |ss|
  {
    if ss == [] then o
    else
      var r := ApplyAll(Apply(o, ss[0]), ss[1..]);
      assert ss[1..] != [] ==> ss[1..][..|ss[1..]| - 1] == ss[..|ss| - 1][1..];
      r
  }

  /** loadOptions */
  method LoadOptions(settings: seq<Setting>) returns (opts: Options)
    ensures opts == ApplyAll(DefaultOptions, settings)
  {
    opts := DefaultOptions;
    var i := 0;
    while i < |settings|
      invariant 0 <= i <= |settings|
      invariant ApplyAll(opts, settings[i..]) == ApplyAll(DefaultOptions, settings)
    {
      assert settings[i..][0] == settings[i] && settings[i..][1..] == settings[i + 1..];
      opts := Apply(opts, settings[i]);
      i := i + 1;
    }
  }

  /** A later option overrides what earlier ones set for its field and leaves the other
      fields as they were; `WithOptions` replaces every field. */
  lemma LaterOptionWins(o: Options, ss: seq<Setting>, s: Setting)
    ensures var before, after := ApplyAll(o, ss), ApplyAll(o, ss + [s]);
      match s
      case WithOptions(x) => after == x
      case WithResultCap(p) => after == before.(resultCap := p)
      case WithIsObjArray(p) => after == before.(isObjArray := p)
      case WithStrBuilderCap(p) => after == before.(strBuilderCap := p)
      case WithRowSize(p) => after == before.(rowSize := p)
  {
    assert (ss + [s])[..|ss|] == ss;
  }

  /** With no options the defaults stand: 50 record slots, object-array mode, a builder
      capacity of 100 and a row size of 18000. */
  lemma NoOptionsGiveDefaults()
    ensures ApplyAll(DefaultOptions, []) == Options(50, true, 100, 18000)
  {}

  /** `valueOf(v).Len()` and `Index(i)` for the shapes the slice iterator can walk; `None` where
      Go panics: a value with no length, or an index into a non-empty map, channel or pointer
      to an array, which have a length but no `Index`. A non-empty string, whose bytes Go
      would index, is not part of this model. */
  function IterElems(v: Val): Option<seq<Val>>
  {
    match v
    case SliceV(es) => Some(es)
    case ArrayV(es) => Some(es)
    case NilSlice | NilMap | NilChan => Some([])
    case MapV(fs) => if |fs| == 0 then Some([]) else None
    case Ptr(ArrayV(es)) => if |es| == 0 then Some([]) else None
    case Chan(n) => if n == 0 then Some([]) else None
    case Str(s) => if |s| == 0 then Some([]) else None
    case _ => None
  }

  /** isObjectArray: a non-empty slice whose first element is a map, a pointer or a struct. */
  function IsObjectArray(v: Val): (b: bool)
    ensures b <==> v.SliceV? && |v.elems| > 0 && KindOf(v.elems[0]) in {KMap, KPtr, KStruct}
  {
    if !v.SliceV? then false
    else if |v.elems| == 0 then false
    else
      var kind := KindOf(v.elems[0]);
      if kind != KMap && kind != KPtr && kind != KStruct then false
      else true
  }

  /** toString. Unsigned values pass through Go's `int(v)`, so those above 2^63 - 1 print as
      negative numbers; the float format is a parameter; a bool prints as `true`/`false`. */
  function ToString(leaf: Leaf, formatFloat: Uint64 -> string): (r: string)
    ensures leaf.LString? ==> r == leaf.s
    ensures leaf.LBool? ==> r == if leaf.b then "true" else "false"
    ensures leaf.LFloat? ==> r == formatFloat(leaf.bits)
  {
    match leaf
    case LInt(i) => Itoa(i)
    case LUint(u) => Itoa(ToInt64(u))
    case LFloat(bits) => formatFloat(bits)
    case LString(s) => s
    case LBool(b) => if b then "true" else "false"
  }

  /** Integers render as decimals that read back as the same number. */
  lemma ToStringReadsBack(leaf: Leaf, formatFloat: Uint64 -> string)
    ensures leaf.LInt? ==> ParseInt(ToString(leaf, formatFloat)) == Some(leaf.i as int)
    ensures leaf.LUint? && leaf.u < TWO_63 ==> ParseInt(ToString(leaf, formatFloat)) == Some(leaf.u as int)
    ensures leaf.LUint? && leaf.u >= TWO_63 ==> ParseInt(ToString(leaf, formatFloat)) == Some(leaf.u - TWO_64)
  {
    match leaf
    case LInt(i) => ItoaRoundTrip(i);
    case LUint(u) => ItoaRoundTrip(ToInt64(u));
    case _ =>
  }

  /** Distinct integer leaves render differently. */
  lemma ToStringSeparatesInts(a: Int64, b: Int64, formatFloat: Uint64 -> string)
    requires a != b
    ensures ToString(LInt(a), formatFloat) != ToString(LInt(b), formatFloat)
  {
    ItoaInjective(a, b);
  }

  /** The registry, the counter and the record list after a conversion, and its error. */
  datatype Outcome = Outcome(mapping: map<string, KeyType>, max: Uint64, records: seq<Store>, err: Option<Error>)

  /** The slice iterator from element `i` on: element `i` is flattened into slot `i`, and the
      first error ends the iteration (the writes already made stay). */
  function Slots(policy: Policy, digest: Digest, mapping: map<string, KeyType>, max: Uint64,
                 recs: seq<Store>, elems: seq<Val>, i: nat): Outcome
    requires i <= |elems| <= |recs|
    decreases |elems| - i
  {
    if i == |elems| then Outcome(mapping, max, recs, None)
    else
      var t := Flat(elems[i], []);
      var st := Replay(policy, digest, State(mapping, max, recs[i]), t.writes);
      if t.err.Some? then Outcome(st.mapping, st.max, recs[i := st.out], t.err)
      else Slots(policy, digest, st.mapping, st.max, recs[i := st.out], elems, i + 1)
  }

  /** doFlatten(v, -1) followed by appendElem: a fresh record, appended when there is no error. */
  function Single(policy: Policy, digest: Digest, mapping: map<string, KeyType>, max: Uint64,
                  recs: seq<Store>, v: Val): Outcome
  {
    var t := Flat(v, []);
    var st := Replay(policy, digest, State(mapping, max, map[]), t.writes);
    if t.err.Some? then Outcome(st.mapping, st.max, recs, t.err)
    else Outcome(st.mapping, st.max, recs + [st.out], None)
  }

  /** Where Go's `Convert` would panic, in either mode: an input the slice iterator cannot
      walk, or more elements than there are record slots. */
  predicate Walkable(isObjArray: bool, data: Val, slots: nat)
  {
    && (isObjArray ==> IterElems(data).Some? && |IterElems(data).value| <= slots)
    && (!isObjArray && IsObjectArray(data) ==> |data.elems| <= slots)
  }

  /** Convert, after the counter reset, as a function of the starting state. */
  function ConvertModel(isObjArray: bool, policy: Policy, digest: Digest, mapping: map<string, KeyType>,
                        max: Uint64, recs: seq<Store>, data: Val): Outcome
    requires Walkable(isObjArray, data, |recs|)
  {
    var nothing := Outcome(mapping, max, recs, None);
    if isObjArray then Slots(policy, digest, mapping, max, recs, IterElems(data).value, 0)
    else match data
      case MapV(fs) => if |fs| > 0 then Single(policy, digest, mapping, max, recs, data) else nothing
      case NilMap => nothing
      case SliceV(es) =>
        if IsObjectArray(data) then Slots(policy, digest, mapping, max, recs, es, 0)
        else if |es| > 0 then Single(policy, digest, mapping, max, recs, data)
        else nothing
      case NilSlice => nothing
      case Struct(_) => Single(policy, digest, mapping, max, recs, data)
      case Ptr(t) => if t.Struct? then Single(policy, digest, mapping, max, recs, data) else nothing
      case NilPtr => nothing
      case _ => Outcome(mapping, max, recs, Some(UnsupportedStructure(KindOf(data))))
  }

  /** In object-array mode an input of length 0 converts successfully and changes nothing:
      an empty slice, array or map, a nil slice, map or channel, an empty channel, and a
      pointer to an empty array, whose `Len` Go also defines. */
  lemma EmptyInputConvertsToNothing(policy: Policy, digest: Digest, mapping: map<string, KeyType>,
                                    max: Uint64, recs: seq<Store>, data: Val)
    requires IterElems(data) == Some([])
    ensures Walkable(true, data, |recs|)
    ensures ConvertModel(true, policy, digest, mapping, max, recs, data) == Outcome(mapping, max, recs, None)
    ensures IterElems(Ptr(ArrayV([]))) == IterElems(Chan(0)) == IterElems(NilChan) == Some([])
  {}

  class StructConverter {
    const kvs: KVs
    const opts: Options
    const headerConv: HeaderConverter

    ghost predicate Valid()
      reads this, kvs
    {
      kvs.Valid() && opts.rowSize >= 0
    }

    /** What `set` works on while `out` is the current record. */
    ghost function St(out: KeyValue): State
      reads kvs, headerConv, out
    {
      State(kvs.mapping, headerConv.max, out.kv)
    }

    constructor (opts: Options, headerConv: HeaderConverter, digest: Digest)
      requires opts.resultCap >= 0 && opts.rowSize >= 0
      ensures this.opts == opts && this.headerConv == headerConv
      ensures fresh(kvs) && kvs.digest == digest && Valid()
      ensures |kvs.kvs| == opts.resultCap && kvs.Records() == seq(opts.resultCap, _ => map[])
      ensures forall i | 0 <= i < |kvs.kvs| :: fresh(kvs.kvs[i])
      ensures kvs.mapping == map[] && kvs.encodeHeaders == [] && kvs.unEncodeHeaders == []
    {
      this.opts := opts;
      this.headerConv := headerConv;
      kvs := new KVs(opts.resultCap, opts.rowSize, digest);
    }

    /** set(out, k, v) */
    method Set(out: KeyValue, k: string, v: Leaf)
      requires out.digest == kvs.digest
      modifies out, kvs`mapping, headerConv`max
      ensures St(out) == SetStep(headerConv.policy, kvs.digest, old(St(out)), Write(k, v))
    {
      var kt: KeyType;
      if k in kvs.mapping {
        kt := kvs.mapping[k];
      } else {
        kt := headerConv.ConvertHeader(k);
      }
      kvs.mapping := kvs.mapping[k := kt];
      out.Set(kt, v);
    }

    /** flatten(out, v, key) */
    method Flatten(out: KeyValue, v: Val, key: PathBuilder) returns (err: Option<Error>)
      requires out.digest == kvs.digest && opts.strBuilderCap >= 0
      modifies out, kvs`mapping, headerConv`max, key`buf
      ensures var t := Flat(v, old(key.buf));
        err == t.err && St(out) == Replay(headerConv.policy, kvs.digest, old(St(out)), t.writes)
      ensures key.buf == if ConsumesKey(v) then [] else old(key.buf)
      decreases v, 1
    {
      if IsZero(v) {
        return None;
      }
      if IsLeaf(v) {
        var path := key.String();
        Set(out, path, LeafOf(v));
        assert Flat(v, old(key.buf)).writes == [Write(path, LeafOf(v))];
        return None;
      }
      match v
      case MapV(_) =>
        err := FlattenMap(out, v, key);
      case SliceV(_) =>
        err := FlattenSlice(out, v, key);
      case ArrayV(_) =>
        err := FlattenSlice(out, v, key);
      case Struct(_) =>
        err := FlattenStruct(out, v, key);
      case Ptr(t) =>
        if t.Struct? {
          err := FlattenStruct(out, v, key);
        } else {
          err := Flatten(out, t, key);
        }
      case Chan(_) =>
        err := Some(UnknownKind("chan"));
      case Unsupported(k) =>
        err := Some(UnknownKind(k));
    }

    /** flattenMap: each non-zero entry under `prefix/key`, in the map's iteration order. */
    method FlattenMap(out: KeyValue, value: Val, prefix: PathBuilder) returns (err: Option<Error>)
      requires value.MapV? && out.digest == kvs.digest && opts.strBuilderCap >= 0
      modifies out, kvs`mapping, headerConv`max
      ensures var t := Fields(value, 0, prefix.buf);
        err == t.err && St(out) == Replay(headerConv.policy, kvs.digest, old(St(out)), t.writes)
      decreases value, 0
    {
      ghost var policy, digest, path := headerConv.policy, kvs.digest, prefix.buf;
      var i := 0;
      while i < |value.fields|
        invariant 0 <= i <= |value.fields| && prefix.buf == path
        invariant Fields(value, i, path).err == Fields(value, 0, path).err
        invariant Replay(policy, digest, St(out), Fields(value, i, path).writes)
               == Replay(policy, digest, old(St(out)), Fields(value, 0, path).writes)
      {
        var entry := value.fields[i];
        if !IsZero(entry.value) {
          var pointer := prefix.Clone(opts.strBuilderCap);
          var _ := pointer.AppendString(entry.name);
          ghost var before := St(out);
          err := Flatten(out, entry.value, pointer);
          ghost var w := Flat(entry.value, Child(path, entry.name));
          ReplayAppend(policy, digest, before, w.writes, Fields(value, i + 1, path).writes);
          if err.Some? {
            return;
          }
        }
        i := i + 1;
      }
      err := None;
    }

    /** flattenSlice: each non-zero element under `prefix/i`, `i` its own index. */
    method FlattenSlice(out: KeyValue, value: Val, prefix: PathBuilder) returns (err: Option<Error>)
      requires (value.SliceV? || value.ArrayV?) && out.digest == kvs.digest && opts.strBuilderCap >= 0
      modifies out, kvs`mapping, headerConv`max
      ensures var t := Elems(value, 0, prefix.buf);
        err == t.err && St(out) == Replay(headerConv.policy, kvs.digest, old(St(out)), t.writes)
      decreases value, 0
    {
      ghost var policy, digest, path := headerConv.policy, kvs.digest, prefix.buf;
      var i := 0;
      while i < |value.elems|
        invariant 0 <= i <= |value.elems| && prefix.buf == path
        invariant Elems(value, i, path).err == Elems(value, 0, path).err
        invariant Replay(policy, digest, St(out), Elems(value, i, path).writes)
               == Replay(policy, digest, old(St(out)), Elems(value, 0, path).writes)
      {
        var elem := value.elems[i];
        if !IsZero(elem) {
          var pointer := prefix.Clone(opts.strBuilderCap);
          var _ := pointer.AppendString(Itoa(i));
          ghost var before := St(out);
          err := Flatten(out, elem, pointer);
          ghost var w := Flat(elem, Child(path, Itoa(i)));
          ReplayAppend(policy, digest, before, w.writes, Elems(value, i + 1, path).writes);
          if err.Some? {
            return;
          }
        }
        i := i + 1;
      }
      err := None;
    }

    /** flattenStruct, for a struct or a pointer to one: each non-zero field under `prefix/Name`. */
    method FlattenStruct(out: KeyValue, value: Val, prefix: PathBuilder) returns (err: Option<Error>)
      requires value.Struct? || (value.Ptr? && value.target.Struct?)
      requires out.digest == kvs.digest && opts.strBuilderCap >= 0
      modifies out, kvs`mapping, headerConv`max
      ensures var t := Fields(if value.Ptr? then value.target else value, 0, prefix.buf);
        err == t.err && St(out) == Replay(headerConv.policy, kvs.digest, old(St(out)), t.writes)
      decreases value, 0
    {
      var s := value;
      if s.Ptr? {
        s := s.target;
      }
      ghost var policy, digest, path := headerConv.policy, kvs.digest, prefix.buf;
      var i := 0;
      while i < |s.fields|
        invariant 0 <= i <= |s.fields| && prefix.buf == path
        invariant Fields(s, i, path).err == Fields(s, 0, path).err
        invariant Replay(policy, digest, St(out), Fields(s, i, path).writes)
               == Replay(policy, digest, old(St(out)), Fields(s, 0, path).writes)
      {
        var f := s.fields[i];
        ghost var before := St(out);
        err := FlattenField(out, f, prefix);
        if !IsZero(f.value) {
          ReplayAppend(policy, digest, before, Flat(f.value, Child(path, f.name)).writes, Fields(s, i + 1, path).writes);
          if err.Some? {
            return;
          }
        }
        i := i + 1;
      }
      err := None;
    }

    /** One field of flattenStruct: a zero field is skipped, any other is flattened under
        `prefix/Name`. */
    method FlattenField(out: KeyValue, f: Field, prefix: PathBuilder) returns (err: Option<Error>)
      requires out.digest == kvs.digest && opts.strBuilderCap >= 0
      modifies out, kvs`mapping, headerConv`max
      ensures IsZero(f.value) ==> err == None && St(out) == old(St(out))
      ensures !IsZero(f.value) ==> var w := Flat(f.value, Child(prefix.buf, f.name));
        err == w.err && St(out) == Replay(headerConv.policy, kvs.digest, old(St(out)), w.writes)
      decreases f.value, 2
    {
      err := None;
      if !IsZero(f.value) {
        var pointer := prefix.Clone(opts.strBuilderCap);
        var _ := pointer.AppendString(f.name);
        err := Flatten(out, f.value, pointer);
      }
    }
  
    /** doFlatten(obj, index): into slot `index`, or with -1 into a fresh record; the record is
        returned when flattening succeeds. */
    method DoFlatten(obj: Val, index: int) returns (f: KeyValue?, err: Option<Error>)
      requires Valid() && opts.strBuilderCap >= 0
      requires index == -1 || 0 <= index < |kvs.kvs|
      modifies if index == -1 then {} else {kvs.kvs[index]}, kvs`mapping, headerConv`max
      ensures var t := Flat(obj, []);
        && err == t.err && (f == null <==> err.Some?)
        && (index == -1 ==>
              var st := Replay(headerConv.policy, kvs.digest, State(old(kvs.mapping), old(headerConv.max), map[]), t.writes);
              kvs.mapping == st.mapping && headerConv.max == st.max &&
              (f != null ==> fresh(f) && f.digest == kvs.digest && f.kv == st.out))
        && (index != -1 ==>
              St(kvs.kvs[index]) == Replay(headerConv.policy, kvs.digest, old(St(kvs.kvs[index])), t.writes) &&
              kvs.Records() == old(kvs.Records())[index := kvs.kvs[index].kv] &&
              (f != null ==> f == kvs.kvs[index]))
    {
      ghost var recs := kvs.Records();
      var out: KeyValue;
      if index == -1 {
        out := new KeyValue(opts.rowSize, kvs.digest);
      } else {
        out := kvs.GetKVElem(index);
      }
      var key := new PathBuilder(opts.strBuilderCap);
      err := Flatten(out, obj, key);
      if index != -1 {
        forall j | 0 <= j < |kvs.kvs| ensures kvs.Records()[j] == recs[index := out.kv][j] {
          if j != index { assert kvs.kvs[j] != kvs.kvs[index]; }
        }
      }
      if err.Some? {
        return null, err;
      }
      return out, None;
    }

    /** Convert(data); `counterAfterReset` is the converter's counter as `Reset` leaves it. */
    method Convert(data: Val) returns (result: KVs?, err: Option<Error>, ghost counterAfterReset: Uint64)
      requires Valid() && opts.strBuilderCap >= 0
      requires Walkable(opts.isObjArray, data, |kvs.kvs|)
      modifies headerConv`max, kvs`mapping, kvs`kvs, set r | r in kvs.kvs
      ensures Valid()
      ensures ConvertModel(opts.isObjArray, headerConv.policy, kvs.digest, old(kvs.mapping), counterAfterReset,
                           old(kvs.Records()), data)
           == Outcome(kvs.mapping, headerConv.max, kvs.Records(), err)
      ensures result == if err.None? then kvs else null
      ensures |old(kvs.kvs)| <= |kvs.kvs| <= |old(kvs.kvs)| + 1 && kvs.kvs[..|old(kvs.kvs)|] == old(kvs.kvs)
      ensures |kvs.kvs| > |old(kvs.kvs)| ==> fresh(kvs.kvs[|old(kvs.kvs)|])
    {
      headerConv.Reset();
      counterAfterReset := headerConv.max;
      err := Dispatch(data);
      result := if err.None? then kvs else null;
    }

    /** The body of Convert after the reset: the slice iterator in object-array mode, otherwise
        a choice by the input's kind. */
    method Dispatch(data: Val) returns (err: Option<Error>)
      requires Valid() && opts.strBuilderCap >= 0
      requires Walkable(opts.isObjArray, data, |kvs.kvs|)
      modifies headerConv`max, kvs`mapping, kvs`kvs, set r | r in kvs.kvs
      ensures Valid()
      ensures ConvertModel(opts.isObjArray, headerConv.policy, kvs.digest, old(kvs.mapping), old(headerConv.max),
                           old(kvs.Records()), data)
           == Outcome(kvs.mapping, headerConv.max, kvs.Records(), err)
      ensures |old(kvs.kvs)| <= |kvs.kvs| <= |old(kvs.kvs)| + 1 && kvs.kvs[..|old(kvs.kvs)|] == old(kvs.kvs)
      ensures |kvs.kvs| > |old(kvs.kvs)| ==> fresh(kvs.kvs[|old(kvs.kvs)|])
    {
      if opts.isObjArray {
        err := SliceIterator(IterElems(data).value);
      } else {
        err := DispatchKind(data);
      }
    }

    /** Convert outside object-array mode: a non-empty map, a struct or a pointer to one is one
        record; an object array goes through the slice iterator; any other slice with elements
        is one record; nil and empty inputs leave everything as it is; other kinds fail. */
    method DispatchKind(data: Val) returns (err: Option<Error>)
      requires Valid() && opts.strBuilderCap >= 0
      requires Walkable(false, data, |kvs.kvs|)
      modifies headerConv`max, kvs`mapping, kvs`kvs, set r | r in kvs.kvs
      ensures Valid()
      ensures ConvertModel(false, headerConv.policy, kvs.digest, old(kvs.mapping), old(headerConv.max),
                           old(kvs.Records()), data)
           == Outcome(kvs.mapping, headerConv.max, kvs.Records(), err)
      ensures |old(kvs.kvs)| <= |kvs.kvs| <= |old(kvs.kvs)| + 1 && kvs.kvs[..|old(kvs.kvs)|] == old(kvs.kvs)
      ensures |kvs.kvs| > |old(kvs.kvs)| ==> fresh(kvs.kvs[|old(kvs.kvs)|])
    {
      // The switch decides between the slice iterator, one record and nothing.
      var iterate, one := false, false;
      match data {
      case MapV(fs) =>
        one := |fs| > 0;
      case SliceV(es) =>
        iterate := IsObjectArray(data);
        one := !iterate && |es| > 0;
      case Struct(_) =>
        one := true;
      case Ptr(t) =>
        one := t.Struct?;
      case NilMap =>
      case NilSlice =>
      case NilPtr =>
      case _ =>
        return Some(UnsupportedStructure(KindOf(data)));
      }
      ghost var model := ConvertModel(false, headerConv.policy, kvs.digest, kvs.mapping, headerConv.max, kvs.Records(), data);
      if iterate {
        assert model == Slots(headerConv.policy, kvs.digest, kvs.mapping, headerConv.max, kvs.Records(), data.elems, 0);
        err := SliceIterator(data.elems);
      } else if one {
        assert model == Single(headerConv.policy, kvs.digest, kvs.mapping, headerConv.max, kvs.Records(), data);
        err := FlattenAndAppend(data);
      } else {
        assert model == Outcome(kvs.mapping, headerConv.max, kvs.Records(), None);
        err := None;
      }
    }

    /** Convert's `sliceIterator`: element `i` into slot `i`, stopping at the first error. */
    method SliceIterator(elems: seq<Val>) returns (err: Option<Error>)
      requires Valid() && opts.strBuilderCap >= 0 && |elems| <= |kvs.kvs|
      modifies kvs`mapping, headerConv`max, set r | r in kvs.kvs
      ensures Valid() && kvs.kvs == old(kvs.kvs)
      ensures Slots(headerConv.policy, kvs.digest, old(kvs.mapping), old(headerConv.max), old(kvs.Records()), elems, 0)
           == Outcome(kvs.mapping, headerConv.max, kvs.Records(), err)
    {
      ghost var policy, digest := headerConv.policy, kvs.digest;
      var i := 0;
      while i < |elems|
        invariant 0 <= i <= |elems| && kvs.kvs == old(kvs.kvs) && Valid()
        invariant Slots(policy, digest, kvs.mapping, headerConv.max, kvs.Records(), elems, i)
               == Slots(policy, digest, old(kvs.mapping), old(headerConv.max), old(kvs.Records()), elems, 0)
      {
        var e := SliceStep(elems, i);
        if e.Some? {
          return e;
        }
        i := i + 1;
      }
      err := None;
    }

    /** One turn of the slice iterator: element `i` flattened into slot `i`. */
    method SliceStep(elems: seq<Val>, i: nat) returns (e: Option<Error>)
      requires Valid() && opts.strBuilderCap >= 0 && i < |elems| <= |kvs.kvs|
      modifies kvs`mapping, headerConv`max, set r | r in kvs.kvs
      ensures Valid() && kvs.kvs == old(kvs.kvs)
      ensures e == Flat(elems[i], []).err
      ensures e.Some? ==> Slots(headerConv.policy, kvs.digest, old(kvs.mapping), old(headerConv.max), old(kvs.Records()), elems, i)
                          == Outcome(kvs.mapping, headerConv.max, kvs.Records(), e)
      ensures e.None? ==> Slots(headerConv.policy, kvs.digest, old(kvs.mapping), old(headerConv.max), old(kvs.Records()), elems, i)
                          == Slots(headerConv.policy, kvs.digest, kvs.mapping, headerConv.max, kvs.Records(), elems, i + 1)
    {
      ghost var policy, digest := headerConv.policy, kvs.digest;
      ghost var recs := kvs.Records();
      ghost var before := St(kvs.kvs[i]);
      ghost var t := Flat(elems[i], []);
      ghost var st := Replay(policy, digest, before, t.writes);
      assert Slots(policy, digest, kvs.mapping, headerConv.max, recs, elems, i)
          == if t.err.Some? then Outcome(st.mapping, st.max, recs[i := st.out], t.err)
             else Slots(policy, digest, st.mapping, st.max, recs[i := st.out], elems, i + 1);
      var _, err := DoFlatten(elems[i], i);
      assert kvs.Records() == recs[i := st.out];
      e := err;
    }

    /** doFlatten(v, -1) and, on success, appendElem of its record. */
    method FlattenAndAppend(v: Val) returns (err: Option<Error>)
      requires Valid() && opts.strBuilderCap >= 0
      modifies kvs`mapping, headerConv`max, kvs`kvs
      ensures Valid()
      ensures Single(headerConv.policy, kvs.digest, old(kvs.mapping), old(headerConv.max), old(kvs.Records()), v)
           == Outcome(kvs.mapping, headerConv.max, kvs.Records(), err)
      ensures err.Some? ==> kvs.kvs == old(kvs.kvs)
      ensures err.None? ==> |kvs.kvs| == |old(kvs.kvs)| + 1 && kvs.kvs[..|old(kvs.kvs)|] == old(kvs.kvs) && fresh(kvs.kvs[|old(kvs.kvs)|])
    {
      var f;
      f, err := DoFlatten(v, -1);
      if err.None? {
        kvs.AppendElem(f);
      }
    }
  }

  /** NewStructConverter: fails exactly when no header converter is given. Go's `make` panics
      on a negative record count or row size. */
  method NewStructConverter(headerConv: HeaderConverter?, settings: seq<Setting>, digest: Digest)
    returns (sc: StructConverter?, err: Option<Error>)
    requires headerConv != null ==> ApplyAll(DefaultOptions, settings).resultCap >= 0
    requires headerConv != null ==> ApplyAll(DefaultOptions, settings).rowSize >= 0
    ensures err.Some? <==> headerConv == null
    ensures err.Some? ==> sc == null && err == Some(NilHeaderConverter)
    ensures err.None? ==> sc != null
    ensures sc != null ==> forall i | 0 <= i < |sc.kvs.kvs| :: fresh(sc.kvs.kvs[i])
    ensures sc != null ==>
      && fresh(sc) && fresh(sc.kvs) && sc.Valid()
      && sc.opts == ApplyAll(DefaultOptions, settings) && sc.headerConv == headerConv && sc.kvs.digest == digest
      && |sc.kvs.kvs| == sc.opts.resultCap && sc.kvs.Records() == seq(sc.opts.resultCap, _ => map[])
      && sc.kvs.mapping == map[] && sc.kvs.encodeHeaders == [] && sc.kvs.unEncodeHeaders == []
  {
    if headerConv == null {
      return null, Some(NilHeaderConverter);
    }
    var opts := LoadOptions(settings);
    sc := new StructConverter(opts, headerConv, digest);
    err := None;
  }
}
