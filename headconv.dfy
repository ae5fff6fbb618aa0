/** The header converters: turn a newly seen path into the key it is stored under. */
module HeaderConv {
  import opened Decimal
  import opened Keys

  /** Which of the two `HeaderConverter` implementations. */
  datatype Policy = AutoIncrement | OriginalString

  /** What `ConvertHeader(s)` returns when the counter stands at `max`, and the counter after it. */
  function Mint(policy: Policy, max: Uint64, s: string): (r: (KeyType, Uint64))
  {
    match policy
    case AutoIncrement => var k := NewKeyAuto(max); (k, k.id)
    case OriginalString => (NewKeyString(s), max)
  }

  /** A `HeaderConverter`. The counter is used by the auto-increment policy only; the
      original-string converter has no state. */
  class HeaderConverter {
    const policy: Policy
    var max: Uint64

    /** NewHeaderAutoIncrementConv */
    constructor NewAutoIncrement()
      ensures policy == AutoIncrement && max == 0
    {
      policy := AutoIncrement;
      max := 0;
    }

    /** NewHeaderOriginalStringConv */
    constructor NewOriginalString()
      ensures policy == OriginalString
    {
      policy := OriginalString;
      max := 0;
    }

    method ConvertHeader(s: string) returns (k: KeyType)
      modifies this`max
      ensures (k, max) == Mint(policy, old(max), s)
    {
      match policy
      case AutoIncrement =>
        k := NewKeyAuto(max);
        max := k.id;
      case OriginalString =>
        k := NewKeyString(s);
    }

    /** Required by the interface; no implementation is part of this model, so nothing is
        promised about the counter afterwards. */
    method Reset()
      modifies this`max
    {
      max := *;
    }
  }

  /** A fresh auto-increment converter hands out 1 ("1") first. */
  lemma FirstAutoKeyIsOne(s: string)
    ensures Mint(AutoIncrement, 0, s).0 == KeyAutoIncrementID(1)
    ensures Mint(AutoIncrement, 0, s).0.String() == "1"
  {
    assert NatToDecimal(1) == [DigitChar(1)];
  }

  /** Each auto-increment call returns the old counter plus one and stores it, wrapping at 2^64;
      the path plays no part, so the same path asked twice gets two different keys. */
  lemma AutoIncrementCounts(max: Uint64, s: string, t: string)
    ensures Mint(AutoIncrement, max, s).0 == Mint(AutoIncrement, max, t).0
    ensures max < TWO_64 - 1 ==> Mint(AutoIncrement, max, s) == (KeyAutoIncrementID(max + 1), max + 1)
    ensures var (k1, m1) := Mint(AutoIncrement, max, s); Mint(AutoIncrement, m1, s).0 != k1
  {}

  /** Successive auto-increment keys, read as numbers, go up by exactly one until the wrap. */
  lemma SuccessiveKeysStepByOne(max: Uint64, s: string, t: string)
    requires max < TWO_64 - 2
    ensures var (k1, m1) := Mint(AutoIncrement, max, s);
            var (k2, m2) := Mint(AutoIncrement, m1, t);
            k2.id == k1.id + 1 && m2 == k2.id
  {}

  /** The original-string converter returns the path itself and keeps no state. */
  lemma OriginalStringIsPath(max: Uint64, s: string)
    ensures Mint(OriginalString, max, s).0.String() == s
    ensures Mint(OriginalString, max, s).1 == max
  {}
}
