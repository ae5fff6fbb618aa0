/** The repository's conversion test: two records of a nested struct type flattened with an
    auto-increment converter and the default options. */
module ConvertExample {
  import opened Wrappers
  import opened Decimal
  import opened StringOrder
  import opened Values
  import opened Keys
  import opened HeaderConv
  import opened FlattenSpec
  import opened Struct2Csv

  /** A `testStruct` value whose `B3[0].B31` holds the given pointers. */
  function TestRecord(b31: seq<Val>): Val
  {
    Struct([
      Field("A1", IntV(1)),
      Field("A2", BoolV(true)),
      Field("B1", SliceV([IntV(2), IntV(3)])),
      Field("B2", SliceV([Struct([Field("B21", IntV(4)), Field("B22", Str("a"))])])),
      Field("B3", SliceV([Ptr(Struct([Field("B31", SliceV(b31))]))]))
    ])
  }

  function TestData(): Val
  {
    SliceV([TestRecord([Ptr(IntV(5))]), TestRecord([Ptr(IntV(5)), Ptr(IntV(6))])])
  }

  const ExpectedPaths: seq<string> :=
    ["/A1", "/A2", "/B1/0", "/B1/1", "/B2/0/B21", "/B2/0/B22", "/B3/0/B31/0", "/B3/0/B31/1"]

  lemma SmallDecimals()
    ensures Itoa(0) == "0" && Itoa(1) == "1"
  {
    assert NatToDecimal(0) == [DigitChar(0)];
    assert NatToDecimal(1) == [DigitChar(1)];
  }

  lemma B1Walk()
    ensures Flat(SliceV([IntV(2), IntV(3)]), "/B1") == Trace([Write("/B1/0", LInt(2)), Write("/B1/1", LInt(3))], None)
  {
    SmallDecimals();
    var v := SliceV([IntV(2), IntV(3)]);
    assert Child("/B1", Itoa(0)) == "/B1/0";
    assert Child("/B1", Itoa(1)) == "/B1/1";
    assert Elems(v, 2, "/B1") == Trace([], None);
    assert Elems(v, 1, "/B1") == Trace([Write("/B1/1", LInt(3))], None);
    assert Elems(v, 0, "/B1") == Trace([Write("/B1/0", LInt(2)), Write("/B1/1", LInt(3))], None);
  }

  lemma B2Walk()
    ensures Flat(SliceV([Struct([Field("B21", IntV(4)), Field("B22", Str("a"))])]), "/B2")
         == Trace([Write("/B2/0/B21", LInt(4)), Write("/B2/0/B22", LString("a"))], None)
  {
    SmallDecimals();
    var s := Struct([Field("B21", IntV(4)), Field("B22", Str("a"))]);
    assert Child("/B2", Itoa(0)) == "/B2/0";
    assert Child("/B2/0", "B21") == "/B2/0/B21";
    assert Child("/B2/0", "B22") == "/B2/0/B22";
    assert Fields(s, 2, "/B2/0") == Trace([], None);
    assert Fields(s, 1, "/B2/0") == Trace([Write("/B2/0/B22", LString("a"))], None);
    assert Fields(s, 0, "/B2/0") == Trace([Write("/B2/0/B21", LInt(4)), Write("/B2/0/B22", LString("a"))], None);
    assert !IsZero(s.fields[0].value);
    assert Flat(s, "/B2/0") == Fields(s, 0, "/B2/0");
    var v := SliceV([s]);
    assert Elems(v, 1, "/B2") == Trace([], None);
    assert Elems(v, 0, "/B2") == Fields(s, 0, "/B2/0");
  }

  lemma B3Walk(b31: seq<Val>, tail: seq<Write>)
    requires Flat(SliceV(b31), "/B3/0/B31") == Trace(tail, None)
    ensures Flat(SliceV([Ptr(Struct([Field("B31", SliceV(b31))]))]), "/B3") == Trace(tail, None)
  {
    SmallDecimals();
    var s := Struct([Field("B31", SliceV(b31))]);
    assert Child("/B3", Itoa(0)) == "/B3/0";
    assert Child("/B3/0", "B31") == "/B3/0/B31";
    assert Fields(s, 1, "/B3/0") == Trace([], None);
    assert tail + [] == tail;
    assert Fields(s, 0, "/B3/0") == Trace(tail, None);
    assert Flat(Ptr(s), "/B3/0") == Fields(s, 0, "/B3/0");
    var v := SliceV([Ptr(s)]);
    assert Elems(v, 1, "/B3") == Trace([], None);
    assert Elems(v, 0, "/B3") == Trace(tail, None);
  }

  lemma FirstB31Walk()
    ensures Flat(SliceV([Ptr(IntV(5))]), "/B3/0/B31") == Trace([Write("/B3/0/B31/0", LInt(5))], None)
  {
    SmallDecimals();
    var v := SliceV([Ptr(IntV(5))]);
    assert Child("/B3/0/B31", Itoa(0)) == "/B3/0/B31/0";
    assert Flat(Ptr(IntV(5)), "/B3/0/B31/0") == Trace([Write("/B3/0/B31/0", LInt(5))], None);
    assert Elems(v, 1, "/B3/0/B31") == Trace([], None);
    assert Elems(v, 0, "/B3/0/B31") == Trace([Write("/B3/0/B31/0", LInt(5))], None);
  }

  lemma SecondB31Walk()
    ensures Flat(SliceV([Ptr(IntV(5)), Ptr(IntV(6))]), "/B3/0/B31")
         == Trace([Write("/B3/0/B31/0", LInt(5)), Write("/B3/0/B31/1", LInt(6))], None)
  {
    SmallDecimals();
    var v := SliceV([Ptr(IntV(5)), Ptr(IntV(6))]);
    assert Child("/B3/0/B31", Itoa(0)) == "/B3/0/B31/0";
    assert Child("/B3/0/B31", Itoa(1)) == "/B3/0/B31/1";
    assert Flat(Ptr(IntV(5)), "/B3/0/B31/0") == Trace([Write("/B3/0/B31/0", LInt(5))], None);
    assert Flat(Ptr(IntV(6)), "/B3/0/B31/1") == Trace([Write("/B3/0/B31/1", LInt(6))], None);
    assert Elems(v, 2, "/B3/0/B31") == Trace([], None);
    assert Elems(v, 1, "/B3/0/B31") == Trace([Write("/B3/0/B31/1", LInt(6))], None);
    assert Elems(v, 0, "/B3/0/B31") == Trace([Write("/B3/0/B31/0", LInt(5)), Write("/B3/0/B31/1", LInt(6))], None);
  }

  /** One step of the field loop on a non-zero field whose walk does not fail. */
  lemma FieldStep(v: Val, i: nat, path: string, ws: seq<Write>)
    requires v.Struct? && i < |v.fields| && !IsZero(v.fields[i].value)
    requires Flat(v.fields[i].value, Child(path, v.fields[i].name)) == Trace(ws, None)
    ensures Fields(v, i, path) == Trace(ws + Fields(v, i + 1, path).writes, Fields(v, i + 1, path).err)
  {
  }

  /** The field loop of a test record from `B3` on. */
  lemma TestRecordFromB3(b31: seq<Val>, tail: seq<Write>)
    requires Flat(SliceV(b31), "/B3/0/B31") == Trace(tail, None)
    ensures Fields(TestRecord(b31), 4, []) == Trace(tail, None)
  {
    var r := TestRecord(b31);
    B3Walk(b31, tail);
    assert Fields(r, 5, []) == Trace([], None);
    assert Child([], "B3") == "/B3";
    FieldStep(r, 4, [], tail);
    assert tail + [] == tail;
  }

  /** The field loop of a test record from `B2` on. */
  lemma TestRecordFromB2(b31: seq<Val>, tail: seq<Write>)
    requires Flat(SliceV(b31), "/B3/0/B31") == Trace(tail, None)
    ensures Fields(TestRecord(b31), 3, []) == Trace([Write("/B2/0/B21", LInt(4)), Write("/B2/0/B22", LString("a"))] + tail, None)
  {
    var r := TestRecord(b31);
    B2Walk();
    TestRecordFromB3(b31, tail);
    assert Child([], "B2") == "/B2";
    FieldStep(r, 3, [], [Write("/B2/0/B21", LInt(4)), Write("/B2/0/B22", LString("a"))]);
  }

  /** The field loop of a test record from `B1` on. */
  lemma TestRecordTail(b31: seq<Val>, tail: seq<Write>)
    requires Flat(SliceV(b31), "/B3/0/B31") == Trace(tail, None)
    ensures Fields(TestRecord(b31), 2, []) == Trace([
      Write("/B1/0", LInt(2)), Write("/B1/1", LInt(3)),
      Write("/B2/0/B21", LInt(4)), Write("/B2/0/B22", LString("a"))] + tail, None)
  {
    var r := TestRecord(b31);
    B1Walk();
    TestRecordFromB2(b31, tail);
    var w2 := [Write("/B2/0/B21", LInt(4)), Write("/B2/0/B22", LString("a"))];
    var w1 := [Write("/B1/0", LInt(2)), Write("/B1/1", LInt(3))];
    assert Child([], "B1") == "/B1";
    FieldStep(r, 2, [], w1);
    assert w1 + (w2 + tail) == [Write("/B1/0", LInt(2)), Write("/B1/1", LInt(3)),
      Write("/B2/0/B21", LInt(4)), Write("/B2/0/B22", LString("a"))] + tail;
  }

  /** The field loop of a test record from `A2` on. */
  lemma TestRecordFromA2(b31: seq<Val>, tail: seq<Write>)
    requires Flat(SliceV(b31), "/B3/0/B31") == Trace(tail, None)
    ensures Fields(TestRecord(b31), 1, []) == Trace([Write("/A2", LBool(true)),
      Write("/B1/0", LInt(2)), Write("/B1/1", LInt(3)),
      Write("/B2/0/B21", LInt(4)), Write("/B2/0/B22", LString("a"))] + tail, None)
  {
    var r := TestRecord(b31);
    TestRecordTail(b31, tail);
    var ws := [Write("/B1/0", LInt(2)), Write("/B1/1", LInt(3)),
      Write("/B2/0/B21", LInt(4)), Write("/B2/0/B22", LString("a"))] + tail;
    assert Child([], "A2") == "/A2";
    FieldStep(r, 1, [], [Write("/A2", LBool(true))]);
    assert [Write("/A2", LBool(true))] + ws == [Write("/A2", LBool(true)),
      Write("/B1/0", LInt(2)), Write("/B1/1", LInt(3)),
      Write("/B2/0/B21", LInt(4)), Write("/B2/0/B22", LString("a"))] + tail;
  }

  /** The walk of one test record: its non-zero leaves, in field order. */
  lemma TestRecordWalk(b31: seq<Val>, tail: seq<Write>)
    requires Flat(SliceV(b31), "/B3/0/B31") == Trace(tail, None)
    ensures Flat(TestRecord(b31), []) == Trace([
      Write("/A1", LInt(1)), Write("/A2", LBool(true)),
      Write("/B1/0", LInt(2)), Write("/B1/1", LInt(3)),
      Write("/B2/0/B21", LInt(4)), Write("/B2/0/B22", LString("a"))] + tail, None)
  {
    var r := TestRecord(b31);
    TestRecordFromA2(b31, tail);
    var ws := [Write("/A2", LBool(true)),
      Write("/B1/0", LInt(2)), Write("/B1/1", LInt(3)),
      Write("/B2/0/B21", LInt(4)), Write("/B2/0/B22", LString("a"))] + tail;
    assert Child([], "A1") == "/A1";
    FieldStep(r, 0, [], [Write("/A1", LInt(1))]);
    assert !IsZero(r.fields[0].value);
    assert Flat(r, []) == Fields(r, 0, []);
    assert [Write("/A1", LInt(1))] + ws
        == [Write("/A1", LInt(1)), Write("/A2", LBool(true)),
      Write("/B1/0", LInt(2)), Write("/B1/1", LInt(3)),
      Write("/B2/0/B21", LInt(4)), Write("/B2/0/B22", LString("a"))] + tail;
  }

  /** Neighbouring expected paths are strictly in order. */
  lemma NeighboursOrdered(k: nat)
    requires k < |ExpectedPaths| - 1
    ensures Leq(ExpectedPaths[k], ExpectedPaths[k + 1]) && ExpectedPaths[k] != ExpectedPaths[k + 1]
  {
    if k == 0 { assert Leq("/A1", "/A2"); }
    else if k == 1 { assert Leq("/A2", "/B1/0"); }
    else if k == 2 { assert Leq("/B1/0", "/B1/1"); }
    else if k == 3 { assert Leq("/B1/1", "/B2/0/B21"); }
    else if k == 4 { assert Leq("/B2/0/B21", "/B2/0/B22"); }
    else if k == 5 { assert Leq("/B2/0/B22", "/B3/0/B31/0"); }
    else { assert Leq("/B3/0/B31/0", "/B3/0/B31/1"); }
  }

  /** The expected header is in ascending order and names each path once. */
  lemma ExpectedPathsSorted()
    ensures Sorted(ExpectedPaths)
    ensures forall i, j | 0 <= i < j < |ExpectedPaths| :: ExpectedPaths[i] != ExpectedPaths[j]
  {
    var e := ExpectedPaths;
    forall k | 0 <= k < |e| - 1 ensures Leq(e[k], e[k + 1]) && e[k] != e[k + 1] {
      NeighboursOrdered(k);
    }
    AdjacentSorted(e);
    forall i, j | 0 <= i < j < |e| ensures e[i] != e[j] {
      if i + 1 < j && e[i] == e[j] {
        AdjacentChain(e, i + 1, j);
        LeqAntisymmetric(e[i], e[i + 1]);
      }
    }
  }

  /** A sequence whose neighbours are in order is sorted. */
  lemma AdjacentSorted(e: seq<string>)
    requires forall k | 0 <= k < |e| - 1 :: Leq(e[k], e[k + 1])
    ensures Sorted(e)
  {
    forall i, j | 0 <= i < j < |e| ensures Leq(Id(e[i]), Id(e[j])) {
      AdjacentChain(e, i, j);
    }
  }

  lemma {:induction false} AdjacentChain(e: seq<string>, i: nat, j: nat)
    requires i < j < |e|
    requires forall k | 0 <= k < |e| - 1 :: Leq(e[k], e[k + 1])
    ensures Leq(e[i], e[j])
    decreases j - i
  {
    if i + 1 < j {
      AdjacentChain(e, i + 1, j);
      LeqTransitive(e[i], e[i + 1], e[j]);
    }
  }

  /** The writes of the first record's walk. */
  const FirstWalk: seq<Write> := [
    Write("/A1", LInt(1)), Write("/A2", LBool(true)),
    Write("/B1/0", LInt(2)), Write("/B1/1", LInt(3)),
    Write("/B2/0/B21", LInt(4)), Write("/B2/0/B22", LString("a")),
    Write("/B3/0/B31/0", LInt(5))]

  /** The writes of the second record's walk: the first's and one more element of `B31`. */
  const SecondWalk: seq<Write> := FirstWalk + [Write("/B3/0/B31/1", LInt(6))]

  lemma TestWalks()
    ensures Flat(TestRecord([Ptr(IntV(5))]), []) == Trace(FirstWalk, None)
    ensures Flat(TestRecord([Ptr(IntV(5)), Ptr(IntV(6))]), []) == Trace(SecondWalk, None)
  {
    FirstB31Walk();
    SecondB31Walk();
    TestRecordWalk([Ptr(IntV(5))], [Write("/B3/0/B31/0", LInt(5))]);
    TestRecordWalk([Ptr(IntV(5)), Ptr(IntV(6))], [Write("/B3/0/B31/0", LInt(5)), Write("/B3/0/B31/1", LInt(6))]);
  }

  /** The paths of a walk listed in order. */
  lemma {:induction false} PathsOfListing(ws: seq<Write>, ps: seq<string>)
    requires |ws| == |ps| && forall i | 0 <= i < |ws| :: ws[i].path == ps[i]
    ensures PathsOf(ws) == set p | p in ps
  {
    forall p | p in ps ensures p in PathsOf(ws) {
      var i :| 0 <= i < |ps| && ps[i] == p;
      assert ws[i] in ws;
    }
  }

  /** Together the two walks write exactly the expected paths. */
  lemma TestPaths()
    ensures PathsOf(FirstWalk) + PathsOf(SecondWalk) == set p | p in ExpectedPaths
  {
    forall i | 0 <= i < |SecondWalk| ensures SecondWalk[i].path == ExpectedPaths[i] {
      if i < 7 { assert SecondWalk[i] == FirstWalk[i]; }
    }
    PathsOfListing(SecondWalk, ExpectedPaths);
    assert PathsOf(FirstWalk) <= PathsOf(SecondWalk) by {
      forall w | w in FirstWalk ensures w in SecondWalk { }
    }
  }

  /** One element of the slice iterator that walks without error. */
  lemma SlotStep(policy: Policy, digest: Digest, mapping: map<string, KeyType>, max: Uint64,
                 recs: seq<Store>, elems: seq<Val>, i: nat, ws: seq<Write>)
    requires i < |elems| <= |recs| && Flat(elems[i], []) == Trace(ws, None)
    ensures var st := Replay(policy, digest, State(mapping, max, recs[i]), ws);
      Slots(policy, digest, mapping, max, recs, elems, i) == Slots(policy, digest, st.mapping, st.max, recs[i := st.out], elems, i + 1)
  {}

  /** Two elements that walk without error fill two slots, and the mapping gains the paths of
      both walks. */
  lemma TwoCleanSlots(policy: Policy, digest: Digest, max: Uint64, recs: seq<Store>, elems: seq<Val>,
                      w1: seq<Write>, w2: seq<Write>)
    requires |elems| == 2 <= |recs|
    requires Flat(elems[0], []) == Trace(w1, None) && Flat(elems[1], []) == Trace(w2, None)
    ensures var o := Slots(policy, digest, map[], max, recs, elems, 0);
      o.err == None && o.mapping.Keys == PathsOf(w1) + PathsOf(w2)
  {
    var start := State(map[], max, recs[0]);
    var st1 := Replay(policy, digest, start, w1);
    var recs1 := recs[0 := st1.out];
    SlotStep(policy, digest, map[], max, recs, elems, 0, w1);
    var mid := State(st1.mapping, st1.max, recs1[1]);
    SlotStep(policy, digest, st1.mapping, st1.max, recs1, elems, 1, w2);
    ReplayGrowsMapping(policy, digest, start, w1);
    ReplayGrowsMapping(policy, digest, mid, w2);
  }

  /** Walking the two test records into any two record slots fails nowhere and registers
      exactly the expected paths, under either policy and from any counter. */
  lemma TestDataOutcome(policy: Policy, digest: Digest, max: Uint64, recs: seq<Store>)
    requires |recs| >= 2
    ensures var o := Slots(policy, digest, map[], max, recs, IterElems(TestData()).value, 0);
      o.err == None && o.mapping.Keys == set p | p in ExpectedPaths
  {
    var elems := [TestRecord([Ptr(IntV(5))]), TestRecord([Ptr(IntV(5)), Ptr(IntV(6))])];
    assert IterElems(TestData()) == Some(elems);
    TestWalks();
    TwoCleanSlots(policy, digest, max, recs, elems, FirstWalk, SecondWalk);
    TestPaths();
  }

  /** The sorted listing of the expected paths' set is the expected header itself. */
  lemma ExpectedHeader(keys: set<string>)
    requires keys == set p | p in ExpectedPaths
    ensures SortedSet(keys) == ExpectedPaths
  {
    ExpectedPathsSorted();
    DistinctIsSetShaped(ExpectedPaths);
    SortedUnique(SortedSet(keys), ExpectedPaths);
  }

  /** In object-array mode the test data is walked over its two records, and the conversion
      succeeds with exactly the expected paths. */
  lemma TestDataConverts(digest: Digest, max: Uint64, recs: seq<Store>)
    requires |recs| == 50
    ensures Walkable(true, TestData(), |recs|)
    ensures var o := ConvertModel(true, AutoIncrement, digest, map[], max, recs, TestData());
      o.err == None && o.mapping.Keys == set p | p in ExpectedPaths
  {
    assert |IterElems(TestData()).value| == 2;
    TestDataOutcome(AutoIncrement, digest, max, recs);
  }

  /** Converting the test data with the default options fills the mapping with the expected paths
      and leaves the header caches empty. */
  method ConvertTestDataMapping(digest: Digest) returns (got: KVs)
    ensures fresh(got)
    ensures got.unEncodeHeaders == [] && got.mapping.Keys == set p | p in ExpectedPaths
  {
    var hc := new HeaderConverter.NewAutoIncrement();
    NoOptionsGiveDefaults();
    var conv, _ := NewStructConverter(hc, [], digest);
    ghost var recs0 := conv.kvs.Records();
    TestDataConverts(digest, 0, recs0);
    var kvs, err, counter := conv.Convert(TestData());
    TestDataConverts(digest, counter, recs0);
    got := kvs;
  }

  /** Converting the test data and asking for the unencoded header gives the test's expected paths. */
  method ConvertTestData(digest: Digest) returns (paths: seq<string>)
    ensures paths == ExpectedPaths
  {
    var got := ConvertTestDataMapping(digest);
    paths := got.GetUnEncodedSortHeader();
    ExpectedHeader(got.mapping.Keys);
  }
}
