/** The path accumulator: a handle on a shared, growable text buffer (`*strings.Builder`).
    Go copies of a `PathBuilder` share one buffer, so a Dafny reference stands for every copy. */
module PathBuilding {

  const Separator: char := '/'
  const BuilderDefaultSize: nat := 64

  /** The capacity a builder reserves: `growSize`, or the default when it is 0. */
  function CapacityHint(growSize: int): int
  {
    if growSize == 0 then BuilderDefaultSize else growSize
  }

  /** The path a sequence of tokens appended one by one spells: "/" + t1 + ... + "/" + tn. */
  function JoinTokens(tokens: seq<string>): string
  {
    if tokens == [] then [] else JoinTokens(tokens[..|tokens| - 1]) + [Separator] + tokens[|tokens| - 1]
  }

  class PathBuilder {
    var buf: string
    var capacity: int

    /** NewPathBuilder(growSize). `Grow` panics on a negative size. */
    constructor (growSize: int)
      requires growSize >= 0
      ensures buf == [] && capacity == CapacityHint(growSize)
    {
      buf := [];
      capacity := CapacityHint(growSize);
    }

    /** Writes the separator and then the token; the returned builder is the same handle. */
    method AppendString(token: string) returns (p: PathBuilder)
      modifies this`buf
      ensures p == this
      ensures buf == old(buf) + [Separator] + token
    {
      buf := buf + [Separator];
      buf := buf + token;
      p := this;
    }

    /** A builder with its own buffer holding the same contents. */
    method Clone(growSize: int) returns (p: PathBuilder)
      requires growSize >= 0
      ensures fresh(p)
      ensures p.buf == buf && p.capacity == CapacityHint(growSize)
    {
      if |buf| == 0 {
        p := new PathBuilder(growSize);
        return;
      }
      p := new PathBuilder(growSize);
      p.buf := buf;
    }

    /** Returns the contents and resets the buffer. */
    method String() returns (s: string)
      modifies this`buf
      ensures s == old(buf) && buf == []
    {
      s := buf;
      buf := [];
    }
  }

  /** Appending tokens one at a time to a fresh builder spells `JoinTokens`. */
  method AppendAll(p: PathBuilder, tokens: seq<string>)
    modifies p`buf
    ensures p.buf == old(p.buf) + JoinTokens(tokens)
  {
    var i := 0;
    while i < |tokens|
      invariant 0 <= i <= |tokens|
      invariant p.buf == old(p.buf) + JoinTokens(tokens[..i])
    {
      assert tokens[..i + 1][..i] == tokens[..i];
      var _ := p.AppendString(tokens[i]);
      i := i + 1;
    }
    assert tokens[..i] == tokens;
  }

  /** After a clone, appending to either builder leaves the other as it was. */
  method CloneIsIndependent(p: PathBuilder, a: string, b: string) returns (q: PathBuilder)
    modifies p`buf
    ensures fresh(q)
    ensures p.buf == old(p.buf) + [Separator] + a
    ensures q.buf == old(p.buf) + [Separator] + b
  {
    q := p.Clone(0);
    var _ := p.AppendString(a);
    var _ := q.AppendString(b);
  }

  /** Two handles on one builder see each other's appends, and `String` consumes the shared contents. */
  method SharedHandles(token: string) returns (first: string, second: string)
    ensures first == [Separator] + token && second == []
  {
    var p := new PathBuilder(0);
    var alias := p;
    var _ := alias.AppendString(token);
    first := p.String();
    second := p.String();
  }
}
