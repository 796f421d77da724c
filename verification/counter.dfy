/** The id counter of the store gateway (dao/elasticsearch/safecounter.go)
    and its one use, stamping a new document with an id
    (dao/elasticsearch/userimpl.go). The mutex makes each `GetCount` atomic,
    so the counter is modelled as a value that calls thread through in
    sequence. */
module Counter {
  import opened Wrappers
  import opened GoInt
  import opened Users

  /** `SafeCounter`; the Go zero value has `count == 0`. */
  datatype SafeCounter = SafeCounter(count: Int64)

  const Zero: SafeCounter := SafeCounter(0)

  /** `GetCount`: `count++` on a 64-bit `int` (wrapping at the top), then the
      new count rendered in decimal. */
  function GetCount(c: SafeCounter): (r: (SafeCounter, string))
    ensures c.count < MaxInt64 ==> r.0.count == c.count + 1
    ensures c.count == MaxInt64 ==> r.0.count == MinInt64
  {
    var next := SafeCounter(Increment64(c.count));
    (next, FormatInt(next.count))
  }

  /** The string `GetCount` returns parses back to the new count, and while
      the count is non-negative it carries no sign and no leading zero. */
  lemma GetCountRendersCount(c: SafeCounter)
    ensures Atoi(GetCount(c).1) == Some(GetCount(c).0.count)
    ensures GetCount(c).0.count >= 0 ==> Canonical(GetCount(c).1)
  {
    AtoiFormatInt(GetCount(c).0.count);
    FormatNonNegative(GetCount(c).0.count);
  }

  /** The strings `n` successive `GetCount` calls return, and the counter
      after them. */
  function Mint(c: SafeCounter, n: nat): (r: (SafeCounter, seq<string>))
    ensures |r.1| == n
    decreases n
  {
    if n == 0 then (c, [])
    else
      var step := GetCount(c);
      var rest := Mint(step.0, n - 1);
      (rest.0, [step.1] + rest.1)
  }

  /** While the counter stays below the top of `int`, `n` calls leave it
      exactly `n` higher. */
  lemma {:induction false} MintCount(c: SafeCounter, n: nat)
    requires c.count + n <= MaxInt64
    ensures Mint(c, n).0.count == c.count + n
    decreases n
  {
    if n > 0 {
      var next := GetCount(c).0;
      assert next.count == c.count + 1;
      MintCount(next, n - 1);
      assert Mint(c, n).0 == Mint(next, n - 1).0;
    }
  }

  /** The i-th of n calls returns the decimal rendering of
      `count + i + 1`. */
  lemma {:induction false} MintAt(c: SafeCounter, n: nat, i: nat)
    requires c.count + n <= MaxInt64
    requires i < n
    ensures Mint(c, n).1[i] == FormatInt(c.count + i + 1)
    decreases i
  {
    var step := GetCount(c);
    assert step.0.count == c.count + 1;
    var rest := Mint(step.0, n - 1).1;
    assert Mint(c, n).1 == [step.1] + rest;
    if i > 0 {
      MintAt(step.0, n - 1, i - 1);
      assert step.0.count + (i - 1) + 1 == c.count + i + 1;
      assert Mint(c, n).1[i] == rest[i - 1];
    }
  }

  /** The whole run at once: the counter ends `n` higher and the ids are
      the renderings of `count + 1` to `count + n`. */
  lemma MintValues(c: SafeCounter, n: nat)
    requires c.count + n <= MaxInt64
    ensures Mint(c, n).0.count == c.count + n
    ensures forall i :: 0 <= i < n ==> Mint(c, n).1[i] == FormatInt(c.count + i + 1)
  {
    MintCount(c, n);
    forall i | 0 <= i < n
      ensures Mint(c, n).1[i] == FormatInt(c.count + i + 1)
    {
      MintAt(c, n, i);
    }
  }

  /** The i-th of n calls parses back to `count + i + 1`. */
  lemma MintParses(c: SafeCounter, n: nat, i: nat)
    requires c.count + n <= MaxInt64
    requires i < n
    ensures Atoi(Mint(c, n).1[i]) == Some(c.count + i + 1)
  {
    MintAt(c, n, i);
    AtoiFormatInt(c.count + i + 1);
  }

  /** Ids from successive calls parse to strictly increasing values, so no
      two are equal. */
  lemma MintIncreasing(c: SafeCounter, n: nat, i: nat, j: nat)
    requires c.count + n <= MaxInt64
    requires i < j < n
    ensures Atoi(Mint(c, n).1[i]) == Some(c.count + i + 1)
    ensures Atoi(Mint(c, n).1[j]) == Some(c.count + j + 1)
    ensures Mint(c, n).1[i] != Mint(c, n).1[j]
  {
    MintParses(c, n, i);
    MintParses(c, n, j);
  }

  /** A zero counter hands out "1", "2", …: the first id is "1" and no id is
      ever "0" or carries a sign or a leading zero. */
  lemma MintFromZero(n: nat)
    requires n <= MaxInt64
    ensures n > 0 ==> Mint(Zero, n).1[0] == "1"
    ensures forall i :: 0 <= i < n ==> Canonical(Mint(Zero, n).1[i]) && Mint(Zero, n).1[i] != "0"
  {
    MintValues(Zero, n);
    forall i | 0 <= i < n
      ensures Canonical(Mint(Zero, n).1[i]) && Mint(Zero, n).1[i] != "0"
    {
      FormatNonNegative(i + 1);
    }
  }

  /** `new.ID = dao.safe.GetCount()` in the store's create: the document
      keeps every field of the submitted user and carries the fresh id. */
  function StampId(c: SafeCounter, u: User): (r: (SafeCounter, User))
    ensures r.1 == u.(id := r.1.id)
    ensures r.0 == GetCount(c).0
    ensures Atoi(r.1.id) == Some(r.0.count)
    ensures r.1.id == GetCount(c).1
  {
    GetCountRendersCount(c);
    var (c', id) := GetCount(c);
    (c', u.(id := id))
  }
}
