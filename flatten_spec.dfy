/** What flattening one value does, stated as pure functions: the walk yields the leaf writes
    in order (and the first error), and `Replay` gives their effect on the registry, the
    converter's counter and the current record. */
module FlattenSpec {
  import opened Wrappers
  import opened Decimal
  import opened Values
  import opened Keys
  import opened HeaderConv
  import opened PathBuilding

  /** One call of `set`: a leaf stored under a path. */
  datatype Write = Write(path: string, leaf: Leaf)

  datatype Error =
    | UnknownKind(kindName: string)           // flatten's default branch
    | UnsupportedStructure(kind: Kind)    // Convert's default branch
    | NilHeaderConverter                  // NewStructConverter without a converter

  /** The writes a walk makes, in order, and the error that stopped it, if any. */
  datatype Trace = Trace(writes: seq<Write>, err: Option<Error>)

  /** The path of a child: the prefix, the separator, the segment. */
  function Child(path: string, segment: string): string
  {
    path + [Separator] + segment
  }

  predicate IsLeaf(v: Val)
  {
    v.Str? || v.IntV? || v.UintV? || v.FloatV? || v.BoolV?
  }

  function LeafOf(v: Val): Leaf
    requires IsLeaf(v)
  {
    match v
    case Str(s) => LString(s)
    case IntV(i) => LInt(i)
    case UintV(u) => LUint(u)
    case FloatV(b) => LFloat(b)
    case BoolV(b) => LBool(b)
  }

  /** flatten(out, v, key) with the key holding `path`. */
  function Flat(v: Val, path: string): Trace
    decreases v, 1, 0
  {
    if IsZero(v) then Trace([], None)
    else if IsLeaf(v) then Trace([Write(path, LeafOf(v))], None)
    else match v
      case Struct(_) => Fields(v, 0, path)
      case MapV(_) => Fields(v, 0, path)
      case SliceV(_) => Elems(v, 0, path)
      case ArrayV(_) => Elems(v, 0, path)
      case Ptr(t) => if t.Struct? then Fields(t, 0, path) else Flat(t, path)
      case Chan(_) => Trace([], Some(UnknownKind("chan")))
      case Unsupported(k) => Trace([], Some(UnknownKind(k)))
      case _ => Trace([], None)
  }

  /** The loop of flattenStruct / flattenMap from field (entry) `i` on: zero values are
      skipped, the others are walked under `path/name`, and the first error ends the loop. */
  function Fields(v: Val, i: nat, path: string): Trace
    requires (v.Struct? || v.MapV?) && i <= |v.fields|
    decreases v, 0, |v.fields| - i
  {
    if i == |v.fields| then Trace([], None)
    else if IsZero(v.fields[i].value) then Fields(v, i + 1, path)
    else
      var w := Flat(v.fields[i].value, Child(path, v.fields[i].name));
      if w.err.Some? then w
      else var rest := Fields(v, i + 1, path); Trace(w.writes + rest.writes, rest.err)
  }

  /** The loop of flattenSlice from index `i` on; an element's segment is its own index. */
  function Elems(v: Val, i: nat, path: string): Trace
    requires (v.SliceV? || v.ArrayV?) && i <= |v.elems|
    decreases v, 0, |v.elems| - i
  {
    if i == |v.elems| then Trace([], None)
    else if IsZero(v.elems[i]) then Elems(v, i + 1, path)
    else
      var w := Flat(v.elems[i], Child(path, Itoa(i)));
      if w.err.Some? then w
      else var rest := Elems(v, i + 1, path); Trace(w.writes + rest.writes, rest.err)
  }

  /** Whether flattening `v` reads the key itself (`key.String()`), which empties it: a
      non-zero leaf, reached directly or through pointers to non-structs. */
  predicate ConsumesKey(v: Val)
  {
    !IsZero(v) && (IsLeaf(v) || (v.Ptr? && !v.target.Struct? && ConsumesKey(v.target)))
  }

  /** What `set` works on: the registry's mapping, the converter's counter, the current record. */
  datatype State = State(mapping: map<string, KeyType>, max: Uint64, out: Store)

  /** set(out, path, leaf): reuse the path's key, or mint one; record it; store the leaf under its integer. */
  function SetStep(policy: Policy, digest: Digest, st: State, w: Write): State
  {
    var (kt, max') := if w.path in st.mapping then (st.mapping[w.path], st.max) else Mint(policy, st.max, w.path);
    State(st.mapping[w.path := kt], max', StoreSet(st.out, kt.Int(digest), w.leaf))
  }

  /** The effect of a sequence of writes, first to last. */
  function Replay(policy: Policy, digest: Digest, st: State, ws: seq<Write>): State
    decreases |ws|
  {
    if ws == [] then st else Replay(policy, digest, SetStep(policy, digest, st, ws[0]), ws[1..])
  }

  function PathsOf(ws: seq<Write>): set<string>
  {
    set w | w in ws :: w.path
  }

  /** `set` reuses or mints the key, and changes nothing else in the mapping or the record. */
  lemma SetReusesOrMints(policy: Policy, digest: Digest, st: State, w: Write)
    ensures var st' := SetStep(policy, digest, st, w);
      && st'.mapping.Keys == st.mapping.Keys + {w.path}
      && (forall p | p in st.mapping :: st'.mapping[p] == st.mapping[p])
      && (w.path in st.mapping ==> st'.max == st.max)
      && (w.path !in st.mapping ==> (st'.mapping[w.path], st'.max) == Mint(policy, st.max, w.path))
      && st'.out.Keys == st.out.Keys + {st'.mapping[w.path].Int(digest)}
      && st'.out[st'.mapping[w.path].Int(digest)] == WrapperValue(true, w.leaf)
      && (forall n | n in st.out && n != st'.mapping[w.path].Int(digest) :: st'.out[n] == st.out[n])
  {}

  lemma {:induction false} ReplayAppend(policy: Policy, digest: Digest, st: State, a: seq<Write>, b: seq<Write>)
    ensures Replay(policy, digest, st, a + b) == Replay(policy, digest, Replay(policy, digest, st, a), b)
    decreases |a|
  {
    if a != [] {
      assert (a + b)[0] == a[0] && (a + b)[1..] == a[1..] + b;
      ReplayAppend(policy, digest, SetStep(policy, digest, st, a[0]), a[1..], b);
    } else {
      assert a + b == b;
    }
  }

  /** The registry grows by exactly the paths written, and a path keeps the key it had. */
  lemma {:induction false} ReplayGrowsMapping(policy: Policy, digest: Digest, st: State, ws: seq<Write>)
    ensures Replay(policy, digest, st, ws).mapping.Keys == st.mapping.Keys + PathsOf(ws)
    ensures forall p | p in st.mapping :: Replay(policy, digest, st, ws).mapping[p] == st.mapping[p]
    decreases |ws|
  {
    if ws != [] {
      ReplayGrowsMapping(policy, digest, SetStep(policy, digest, st, ws[0]), ws[1..]);
      assert ws == [ws[0]] + ws[1..];
      assert PathsOf(ws) == {ws[0].path} + PathsOf(ws[1..]);
    }
  }

  /** Auto-increment registry invariant: every key is an identifier in `1..max`, and distinct
      paths have distinct identifiers. */
  ghost predicate AutoNumbered(st: State)
  {
    && (forall p | p in st.mapping :: st.mapping[p].KeyAutoIncrementID? && 1 <= st.mapping[p].id <= st.max)
    && (forall p, q | p in st.mapping && q in st.mapping && p != q :: st.mapping[p].id != st.mapping[q].id)
  }

  /** Without a wrap of the counter, auto-increment numbering stays a one-to-one assignment:
      a new path gets the next identifier, an old one keeps its own. */
  lemma {:induction false} ReplayKeepsAutoNumbered(digest: Digest, st: State, ws: seq<Write>)
    requires AutoNumbered(st) && st.max + |ws| < TWO_64
    ensures AutoNumbered(Replay(AutoIncrement, digest, st, ws))
    ensures st.max <= Replay(AutoIncrement, digest, st, ws).max <= st.max + |ws|
    decreases |ws|
  {
    if ws != [] {
      var st' := SetStep(AutoIncrement, digest, st, ws[0]);
      assert AutoNumbered(st') by {
        if ws[0].path !in st.mapping {
          assert st'.mapping[ws[0].path].id == st.max + 1 == st'.max;
        }
      }
      ReplayKeepsAutoNumbered(digest, st', ws[1..]);
    }
  }

  /** Original-string registry invariant: every path is keyed by itself. */
  ghost predicate SelfKeyed(st: State)
  {
    forall p | p in st.mapping :: st.mapping[p] == KeyString(p)
  }

  lemma {:induction false} ReplayKeepsSelfKeyed(digest: Digest, st: State, ws: seq<Write>)
    requires SelfKeyed(st)
    ensures SelfKeyed(Replay(OriginalString, digest, st, ws))
    ensures Replay(OriginalString, digest, st, ws).max == st.max
    decreases |ws|
  {
    if ws != [] {
      ReplayKeepsSelfKeyed(digest, SetStep(OriginalString, digest, st, ws[0]), ws[1..]);
    }
  }

  /** Every path a walk writes extends the starting path. */
  lemma {:induction false} FlatPathsExtend(v: Val, path: string)
    ensures forall w | w in Flat(v, path).writes :: path <= w.path
    decreases v, 1, 0
  {
    if !IsZero(v) && !IsLeaf(v) {
      match v
      case Struct(_) => FieldsPathsExtend(v, 0, path);
      case MapV(_) => FieldsPathsExtend(v, 0, path);
      case SliceV(_) => ElemsPathsExtend(v, 0, path);
      case ArrayV(_) => ElemsPathsExtend(v, 0, path);
      case Ptr(t) => if t.Struct? { FieldsPathsExtend(t, 0, path); } else { FlatPathsExtend(t, path); }
      case _ =>
    }
  }

  /** Every path the struct or map loop writes from field `i` on extends `path/name` of a
      non-zero field at or after `i`. */
  lemma {:induction false} FieldsPathsExtend(v: Val, i: nat, path: string)
    requires (v.Struct? || v.MapV?) && i <= |v.fields|
    ensures forall w | w in Fields(v, i, path).writes :: path <= w.path
    ensures forall w | w in Fields(v, i, path).writes ::
      exists j | i <= j < |v.fields| :: !IsZero(v.fields[j].value) && Child(path, v.fields[j].name) <= w.path
    decreases v, 0, |v.fields| - i
  {
    if i < |v.fields| {
      FieldsPathsExtend(v, i + 1, path);
      if !IsZero(v.fields[i].value) {
        var c := Child(path, v.fields[i].name);
        FlatPathsExtend(v.fields[i].value, c);
        forall w | w in Flat(v.fields[i].value, c).writes
          ensures path <= w.path && exists j | i <= j < |v.fields| :: !IsZero(v.fields[j].value) && Child(path, v.fields[j].name) <= w.path
        {
          assert path <= c;
          PrefixTransitive(path, c, w.path);
        }
      }
    }
  }

  /** Every path the slice loop writes from index `i` on extends `path/j`, where `j` is the
      original index of a non-zero element at or after `i`: skipped elements shift nothing. */
  lemma {:induction false} ElemsPathsExtend(v: Val, i: nat, path: string)
    requires (v.SliceV? || v.ArrayV?) && i <= |v.elems|
    ensures forall w | w in Elems(v, i, path).writes :: path <= w.path
    ensures forall w | w in Elems(v, i, path).writes ::
      exists j | i <= j < |v.elems| :: !IsZero(v.elems[j]) && Child(path, Itoa(j)) <= w.path
    decreases v, 0, |v.elems| - i
  {
    if i < |v.elems| {
      ElemsPathsExtend(v, i + 1, path);
      if !IsZero(v.elems[i]) {
        var c := Child(path, Itoa(i));
        FlatPathsExtend(v.elems[i], c);
        forall w | w in Flat(v.elems[i], c).writes
          ensures path <= w.path && exists j | i <= j < |v.elems| :: !IsZero(v.elems[j]) && Child(path, Itoa(j)) <= w.path
        {
          assert path <= c;
          PrefixTransitive(path, c, w.path);
        }
      }
    }
  }

  lemma PrefixTransitive(a: string, b: string, c: string)
    requires a <= b && b <= c
    ensures a <= c
  {
    assert c[..|a|] == c[..|b|][..|a|];
  }

  /** Sparse rows: no walk ever writes a zero leaf. */
  lemma {:induction false} FlatWritesNoZero(v: Val, path: string)
    ensures forall w | w in Flat(v, path).writes :: !LeafIsZero(w.leaf)
    decreases v, 1, 0
  {
    if !IsZero(v) && !IsLeaf(v) {
      match v
      case Struct(_) => FieldsWriteNoZero(v, 0, path);
      case MapV(_) => FieldsWriteNoZero(v, 0, path);
      case SliceV(_) => ElemsWriteNoZero(v, 0, path);
      case ArrayV(_) => ElemsWriteNoZero(v, 0, path);
      case Ptr(t) => if t.Struct? { FieldsWriteNoZero(t, 0, path); } else { FlatWritesNoZero(t, path); }
      case _ =>
    }
  }

  lemma {:induction false} FieldsWriteNoZero(v: Val, i: nat, path: string)
    requires (v.Struct? || v.MapV?) && i <= |v.fields|
    ensures forall w | w in Fields(v, i, path).writes :: !LeafIsZero(w.leaf)
    decreases v, 0, |v.fields| - i
  {
    if i < |v.fields| {
      FieldsWriteNoZero(v, i + 1, path);
      if !IsZero(v.fields[i].value) {
        FlatWritesNoZero(v.fields[i].value, Child(path, v.fields[i].name));
      }
    }
  }

  lemma {:induction false} ElemsWriteNoZero(v: Val, i: nat, path: string)
    requires (v.SliceV? || v.ArrayV?) && i <= |v.elems|
    ensures forall w | w in Elems(v, i, path).writes :: !LeafIsZero(w.leaf)
    decreases v, 0, |v.elems| - i
  {
    if i < |v.elems| {
      ElemsWriteNoZero(v, i + 1, path);
      if !IsZero(v.elems[i]) {
        FlatWritesNoZero(v.elems[i], Child(path, Itoa(i)));
      }
    }
  }

  /** A zero value, at the top or nested, writes nothing and is no error; a pointer to a struct
      is walked as the struct, under the same path; any other pointer as its target. */
  lemma ZeroAndPointerWalks(v: Val, path: string)
    ensures IsZero(v) ==> Flat(v, path) == Trace([], None)
    ensures v.Ptr? && v.target.Struct? ==> Flat(v, path) == Fields(v.target, 0, path)
    ensures v.Ptr? && !v.target.Struct? ==> Flat(v, path) == Flat(v.target, path)
  {}

  /** No value of an unknown kind occurs anywhere in `v`. */
  predicate KnownKinds(v: Val)
    decreases v
  {
    match v
    case Unsupported(_) => false
    case Chan(_) => false
    case Struct(fs) => forall i | 0 <= i < |fs| :: KnownKinds(fs[i].value)
    case MapV(fs) => forall i | 0 <= i < |fs| :: KnownKinds(fs[i].value)
    case SliceV(es) => forall i | 0 <= i < |es| :: KnownKinds(es[i])
    case ArrayV(es) => forall i | 0 <= i < |es| :: KnownKinds(es[i])
    case Ptr(t) => KnownKinds(t)
    case _ => true
  }

  /** A value of an unknown kind is never zero, and neither is anything holding one, so the
      zero-value skip never hides one. */
  lemma {:induction false} ZeroIsKnown(v: Val)
    requires IsZero(v)
    ensures KnownKinds(v)
    decreases v
  {
    match v
    case Struct(fs) =>
      forall i | 0 <= i < |fs| ensures KnownKinds(fs[i].value) { ZeroIsKnown(fs[i].value); }
    case ArrayV(es) =>
      forall i | 0 <= i < |es| ensures KnownKinds(es[i]) { ZeroIsKnown(es[i]); }
    case _ =>
  }

  /** Flattening fails exactly when a value of an unknown kind occurs somewhere in `v`. */
  lemma {:induction false} FailsExactlyOnUnknownKind(v: Val, path: string)
    ensures Flat(v, path).err.Some? <==> !KnownKinds(v)
    decreases v, 1, 0
  {
    if IsZero(v) {
      ZeroIsKnown(v);
    } else if !IsLeaf(v) {
      match v
      case Struct(_) => FieldsFailExactlyOnUnknownKind(v, 0, path);
      case MapV(_) => FieldsFailExactlyOnUnknownKind(v, 0, path);
      case SliceV(_) => ElemsFailExactlyOnUnknownKind(v, 0, path);
      case ArrayV(_) => ElemsFailExactlyOnUnknownKind(v, 0, path);
      case Ptr(t) =>
        if t.Struct? { FieldsFailExactlyOnUnknownKind(t, 0, path); } else { FailsExactlyOnUnknownKind(t, path); }
      case _ =>
    }
  }

  /** The struct and map loops from field `i` on fail exactly when a field at or after `i`
      holds a value of an unknown kind. */
  lemma {:induction false} FieldsFailExactlyOnUnknownKind(v: Val, i: nat, path: string)
    requires (v.Struct? || v.MapV?) && i <= |v.fields|
    ensures Fields(v, i, path).err.Some? <==> exists j | i <= j < |v.fields| :: !KnownKinds(v.fields[j].value)
    decreases v, 0, |v.fields| - i
  {
    if i < |v.fields| {
      var f := v.fields[i].value;
      FieldsFailExactlyOnUnknownKind(v, i + 1, path);
      if IsZero(f) {
        ZeroIsKnown(f);
      } else {
        FailsExactlyOnUnknownKind(f, Child(path, v.fields[i].name));
      }
    }
  }

  /** The slice loop from index `i` on fails exactly when an element at or after `i` holds a
      value of an unknown kind. */
  lemma {:induction false} ElemsFailExactlyOnUnknownKind(v: Val, i: nat, path: string)
    requires (v.SliceV? || v.ArrayV?) && i <= |v.elems|
    ensures Elems(v, i, path).err.Some? <==> exists j | i <= j < |v.elems| :: !KnownKinds(v.elems[j])
    decreases v, 0, |v.elems| - i
  {
    if i < |v.elems| {
      var e := v.elems[i];
      ElemsFailExactlyOnUnknownKind(v, i + 1, path);
      if IsZero(e) {
        ZeroIsKnown(e);
      } else {
        FailsExactlyOnUnknownKind(e, Child(path, Itoa(i)));
      }
    }
  }

  /** What field `i` of the struct or map loop writes: nothing when it is zero, otherwise its
      walk under `path/name`. */
  function FieldOwn(v: Val, i: nat, path: string): seq<Write>
    requires (v.Struct? || v.MapV?) && i < |v.fields|
  {
    if IsZero(v.fields[i].value) then [] else Flat(v.fields[i].value, Child(path, v.fields[i].name)).writes
  }

  /** The writes of fields `i..j-1`, in order. */
  function FieldWrites(v: Val, i: nat, j: nat, path: string): seq<Write>
    requires (v.Struct? || v.MapV?) && i <= j <= |v.fields|
    decreases j - i
  {
    if i == j then [] else FieldOwn(v, i, path) + FieldWrites(v, i + 1, j, path)
  }

  /** Field `k` of the struct or map loop is skipped as zero or walks without an error. */
  predicate FieldOk(v: Val, k: nat, path: string)
    requires (v.Struct? || v.MapV?) && k < |v.fields|
  {
    IsZero(v.fields[k].value) || Flat(v.fields[k].value, Child(path, v.fields[k].name)).err.None?
  }

  /** The loop from field `i` on, with outcome `t`, stopped at field `j`: the fields before `j`
      went through, `j` is non-zero and failed with `t`'s error, and `t`'s writes are those of
      the fields before `j` followed by `j`'s own. */
  predicate FieldsFailAt(v: Val, i: nat, j: nat, path: string, t: Trace)
    requires (v.Struct? || v.MapV?)
  {
    && i <= j < |v.fields|
    && (forall k | i <= k < j :: FieldOk(v, k, path))
    && !IsZero(v.fields[j].value)
    && Flat(v.fields[j].value, Child(path, v.fields[j].name)).err == t.err
    && t.writes == FieldWrites(v, i, j, path) + FieldOwn(v, j, path)
  }

  /** A field that goes through adds its own writes in front of the rest of the loop. */
  lemma FieldsPassStep(v: Val, i: nat, path: string)
    requires (v.Struct? || v.MapV?) && i < |v.fields|
    ensures FieldOk(v, i, path) ==>
      Fields(v, i, path) == Trace(FieldOwn(v, i, path) + Fields(v, i + 1, path).writes, Fields(v, i + 1, path).err)
    ensures !FieldOk(v, i, path) ==> Fields(v, i, path) == Flat(v.fields[i].value, Child(path, v.fields[i].name))
  {
    if IsZero(v.fields[i].value) {
      assert FieldOwn(v, i, path) == [];
    }
  }

  /** The struct and map loops without an error: every field went through, and the writes
      are those of the non-zero fields in order. */
  lemma {:induction false} FieldsWithoutError(v: Val, i: nat, path: string)
    requires (v.Struct? || v.MapV?) && i <= |v.fields| && Fields(v, i, path).err.None?
    ensures Fields(v, i, path).writes == FieldWrites(v, i, |v.fields|, path)
    ensures forall k | i <= k < |v.fields| :: FieldOk(v, k, path)
    decreases |v.fields| - i
  {
    if i < |v.fields| {
      FieldsPassStep(v, i, path);
      assert FieldOk(v, i, path);
      FieldsWithoutError(v, i + 1, path);
      assert FieldWrites(v, i, |v.fields|, path) == FieldOwn(v, i, path) + FieldWrites(v, i + 1, |v.fields|, path);
    }
  }

  /** The struct and map loops with an error: the loop stopped at the first failing field, and
      the fields after it were never visited. */
  lemma {:induction false} FieldsStopAtFirstError(v: Val, i: nat, path: string)
    requires (v.Struct? || v.MapV?) && i <= |v.fields| && Fields(v, i, path).err.Some?
    ensures exists j :: FieldsFailAt(v, i, j, path, Fields(v, i, path))
    decreases |v.fields| - i
  {
    if FieldOk(v, i, path) {
      FieldsStopAtFirstError(v, i + 1, path);
      var j :| FieldsFailAt(v, i + 1, j, path, Fields(v, i + 1, path));
      FieldsPassStep(v, i, path);
      FieldsFailAtCons(v, i, j, path, Fields(v, i + 1, path));
    } else {
      FieldsPassStep(v, i, path);
      assert FieldWrites(v, i, i, path) == [];
      assert FieldsFailAt(v, i, i, path, Fields(v, i, path));
    }
  }

  /** A field that goes through keeps the stop found after it. */
  lemma FieldsFailAtCons(v: Val, i: nat, j: nat, path: string, rest: Trace)
    requires (v.Struct? || v.MapV?) && i < |v.fields| && FieldOk(v, i, path) && FieldsFailAt(v, i + 1, j, path, rest)
    ensures FieldsFailAt(v, i, j, path, Trace(FieldOwn(v, i, path) + rest.writes, rest.err))
  {
    var own, before, failing := FieldOwn(v, i, path), FieldWrites(v, i + 1, j, path), FieldOwn(v, j, path);
    assert FieldWrites(v, i, j, path) == own + before;
    assert own + rest.writes == (own + before) + failing;
  }

  /** What element `i` of the slice loop writes: nothing when it is zero, otherwise its walk
      under `path/i`. */
  function ElemOwn(v: Val, i: nat, path: string): seq<Write>
    requires (v.SliceV? || v.ArrayV?) && i < |v.elems|
  {
    if IsZero(v.elems[i]) then [] else Flat(v.elems[i], Child(path, Itoa(i))).writes
  }

  /** The writes of elements `i..j-1`, in order. */
  function ElemWrites(v: Val, i: nat, j: nat, path: string): seq<Write>
    requires (v.SliceV? || v.ArrayV?) && i <= j <= |v.elems|
    decreases j - i
  {
    if i == j then [] else ElemOwn(v, i, path) + ElemWrites(v, i + 1, j, path)
  }

  /** Element `k` of the slice loop is skipped as zero or walks without an error. */
  predicate ElemOk(v: Val, k: nat, path: string)
    requires (v.SliceV? || v.ArrayV?) && k < |v.elems|
  {
    IsZero(v.elems[k]) || Flat(v.elems[k], Child(path, Itoa(k))).err.None?
  }

  /** The slice loop from index `i` on, with outcome `t`, stopped at element `j`, as for
      fields, each element walked under its original index. */
  predicate ElemsFailAt(v: Val, i: nat, j: nat, path: string, t: Trace)
    requires (v.SliceV? || v.ArrayV?)
  {
    && i <= j < |v.elems|
    && (forall k | i <= k < j :: ElemOk(v, k, path))
    && !IsZero(v.elems[j])
    && Flat(v.elems[j], Child(path, Itoa(j))).err == t.err
    && t.writes == ElemWrites(v, i, j, path) + ElemOwn(v, j, path)
  }

  /** An element that goes through adds its own writes in front of the rest of the loop. */
  lemma ElemsPassStep(v: Val, i: nat, path: string)
    requires (v.SliceV? || v.ArrayV?) && i < |v.elems|
    ensures ElemOk(v, i, path) ==>
      Elems(v, i, path) == Trace(ElemOwn(v, i, path) + Elems(v, i + 1, path).writes, Elems(v, i + 1, path).err)
    ensures !ElemOk(v, i, path) ==> Elems(v, i, path) == Flat(v.elems[i], Child(path, Itoa(i)))
  {
    if IsZero(v.elems[i]) {
      assert ElemOwn(v, i, path) == [];
    }
  }

  /** The slice loop without an error, as for fields. */
  lemma {:induction false} ElemsWithoutError(v: Val, i: nat, path: string)
    requires (v.SliceV? || v.ArrayV?) && i <= |v.elems| && Elems(v, i, path).err.None?
    ensures Elems(v, i, path).writes == ElemWrites(v, i, |v.elems|, path)
    ensures forall k | i <= k < |v.elems| :: ElemOk(v, k, path)
    decreases |v.elems| - i
  {
    if i < |v.elems| {
      ElemsPassStep(v, i, path);
      assert ElemOk(v, i, path);
      ElemsWithoutError(v, i + 1, path);
      assert ElemWrites(v, i, |v.elems|, path) == ElemOwn(v, i, path) + ElemWrites(v, i + 1, |v.elems|, path);
    }
  }

  /** The slice loop with an error, as for fields. */
  lemma {:induction false} ElemsStopAtFirstError(v: Val, i: nat, path: string)
    requires (v.SliceV? || v.ArrayV?) && i <= |v.elems| && Elems(v, i, path).err.Some?
    ensures exists j :: ElemsFailAt(v, i, j, path, Elems(v, i, path))
    decreases |v.elems| - i
  {
    if ElemOk(v, i, path) {
      ElemsStopAtFirstError(v, i + 1, path);
      var j :| ElemsFailAt(v, i + 1, j, path, Elems(v, i + 1, path));
      ElemsPassStep(v, i, path);
      ElemsFailAtCons(v, i, j, path, Elems(v, i + 1, path));
    } else {
      ElemsPassStep(v, i, path);
      assert ElemWrites(v, i, i, path) == [];
      assert ElemsFailAt(v, i, i, path, Elems(v, i, path));
    }
  }

  /** An element that goes through keeps the stop found after it. */
  lemma ElemsFailAtCons(v: Val, i: nat, j: nat, path: string, rest: Trace)
    requires (v.SliceV? || v.ArrayV?) && i < |v.elems| && ElemOk(v, i, path) && ElemsFailAt(v, i + 1, j, path, rest)
    ensures ElemsFailAt(v, i, j, path, Trace(ElemOwn(v, i, path) + rest.writes, rest.err))
  {
    var own, before, failing := ElemOwn(v, i, path), ElemWrites(v, i + 1, j, path), ElemOwn(v, j, path);
    assert ElemWrites(v, i, j, path) == own + before;
    assert own + rest.writes == (own + before) + failing;
  }

  /** A skipped element does not shift the indices of the ones after it: `[0, 5]` writes only
      under index 1. */
  lemma SkippedElementKeepsIndices()
    ensures Flat(SliceV([IntV(0), IntV(5)]), "/B1") == Trace([Write("/B1/1", LInt(5))], None)
  {
    var v := SliceV([IntV(0), IntV(5)]);
    assert Itoa(1) == "1" by { assert NatToDecimal(1) == [DigitChar(1)]; }
    assert Child("/B1", Itoa(1)) == "/B1/1";
    assert Elems(v, 2, "/B1") == Trace([], None);
    assert Elems(v, 1, "/B1") == Trace([Write("/B1/1", LInt(5))], None);
    assert Elems(v, 0, "/B1") == Elems(v, 1, "/B1");
  }

  /** The first error ends the walk, on a struct whose middle field is a channel: the field
      before it keeps its write, the one after it is not visited. */
  lemma ErrorStopsWalk()
    ensures Flat(Struct([Field("A", IntV(1)), Field("B", Chan(0)), Field("C", IntV(2))]), [])
         == Trace([Write("/A", LInt(1))], Some(UnknownKind("chan")))
  {
    var v := Struct([Field("A", IntV(1)), Field("B", Chan(0)), Field("C", IntV(2))]);
    assert Child([], "A") == "/A" && Child([], "B") == "/B";
    assert Fields(v, 1, []) == Trace([], Some(UnknownKind("chan")));
    assert !IsZero(v.fields[0].value);
    assert Fields(v, 0, []) == Trace([Write("/A", LInt(1))], Some(UnknownKind("chan")));
  }
}
