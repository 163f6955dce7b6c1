/**
 The representative weights table (rep_weights.cpp): 128-bit weights that wrap around. Every public call
 holds the table's mutex throughout, so calls are steps.
 */
module RepWeights {
  import opened FixedBytes

  type Weight = n: nat | n < TWO_128

  type Account = nat // a 256-bit key, by its number

  type Table = map<Account, Weight>

  /** uint128_t addition, which wraps around. */
  function Plus(x: Weight, y: Weight): Weight
  {
    if x + y < TWO_128 then x + y else x + y - TWO_128
  }

  function Get(t: Table, a: Account): Weight
  {
    if a in t then t[a] else 0
  }

  function Added(t: Table, a: Account, x: Weight): Table
  {
    t[a := Plus(Get(t, a), x)]
  }

  /** The pointwise sum of two tables. */
  function Merged(t: Table, o: Table): Table
  {
    map a | a in t.Keys + o.Keys :: Plus(Get(t, a), Get(o, a))
  }

  class RepTable {
    var repAmounts: Table

    constructor ()
      ensures repAmounts == map[]
    {
      repAmounts := map[];
    }

    method RepresentationAdd(a: Account, x: Weight)
      modifies this
      ensures repAmounts == Added(old(repAmounts), a, x)
    {
      RepresentationPut(a, Plus(Get(repAmounts, a), x));
    }

    /** As two single additions, also when both representatives are the same. */
    method RepresentationAddDual(a: Account, x: Weight, b: Account, y: Weight)
      modifies this
      ensures repAmounts == Added(Added(old(repAmounts), a, x), b, y)
    {
      if a != b {
        RepresentationAdd(a, x);
        RepresentationAdd(b, y);
      } else {
        AddTwice(repAmounts, a, x, y);
        RepresentationAdd(a, Plus(x, y));
      }
    }

    method RepresentationPut(a: Account, x: Weight)
      modifies this
      ensures repAmounts == old(repAmounts)[a := x]
    {
      repAmounts := repAmounts[a := x];
    }

    /** The entries of the other table come in any order. */
    method CopyFrom(other: RepTable)
      requires other != this
      modifies this
      ensures repAmounts == Merged(old(repAmounts), other.repAmounts)
    {
      var entries := other.repAmounts;
      var todo := entries.Keys;
      ghost var was := repAmounts;
      MergeNone(was, entries);
      while todo != {}
        invariant todo <= entries.Keys && other.repAmounts == entries
        invariant repAmounts == Merged(was, entries - todo)
        decreases |todo|
      {
        var a :| a in todo;
        OneFewer(entries, todo, a);
        MergeOneMore(was, entries - todo, a, entries[a]);
        RepresentationAdd(a, entries[a]);
        todo := todo - {a};
      }
      assert entries - {} == entries;
    }
  }

  lemma PlusAssoc(x: Weight, y: Weight, z: Weight)
    ensures Plus(Plus(x, y), z) == Plus(x, Plus(y, z))
  {
  }

  lemma AddTwice(t: Table, a: Account, x: Weight, y: Weight)
    ensures Added(t, a, Plus(x, y)) == Added(Added(t, a, x), a, y)
  {
    PlusAssoc(Get(t, a), x, y);
  }

  lemma MergeNone(t: Table, o: Table)
    ensures Merged(t, o - o.Keys) == t
  {
  }

  lemma OneFewer(o: Table, todo: set<Account>, a: Account)
    requires a in todo && todo <= o.Keys
    ensures o - (todo - {a}) == (o - todo)[a := o[a]]
  {
  }

  lemma MergeOneMore(t: Table, o: Table, a: Account, x: Weight)
    requires a !in o
    ensures Merged(t, o[a := x]) == Added(Merged(t, o), a, x)
  {
    var l, r := Merged(t, o[a := x]), Added(Merged(t, o), a, x);
    assert l.Keys == r.Keys;
    forall k | k in l.Keys ensures l[k] == r[k] {
    }
  }

  // ---------- the total ----------

  ghost function Total(t: Table): nat
    decreases |t|
  {
    if t == map[] then 0
    else
      var a :| a in t;
      t[a] + Total(t - {a})
  }

  /** The total does not depend on the order of summation. */
  lemma {:induction false} TotalWithout(t: Table, a: Account)
    requires a in t
    ensures Total(t) == t[a] + Total(t - {a})
    decreases |t|
  {
    var b :| b in t && Total(t) == t[b] + Total(t - {b});
    if a != b {
      TotalWithout(t - {b}, a);
      TotalWithout(t - {a}, b);
      assert t - {b} - {a} == t - {a} - {b};
    }
  }

  lemma TotalPut(t: Table, a: Account, x: Weight)
    ensures Total(t[a := x]) == Total(t) - Get(t, a) + x
  {
    TotalWithout(t[a := x], a);
    if a in t {
      TotalWithout(t, a);
      assert t[a := x] - {a} == t - {a};
    } else {
      assert t[a := x] - {a} == t;
    }
  }

  /** Every addition falls short of the true sum by a number of wraps, which the lemmas below return. */
  lemma TotalAdded(t: Table, a: Account, x: Weight) returns (wraps: nat)
    ensures Total(Added(t, a, x)) + wraps * TWO_128 == Total(t) + x
  {
    TotalPut(t, a, Plus(Get(t, a), x));
    wraps := if Get(t, a) + x < TWO_128 then 0 else 1;
  }

  lemma MergedWithout(t: Table, o: Table, a: Account)
    requires a in o
    ensures Merged(t, o) == Added(Merged(t, o - {a}), a, o[a])
  {
    MergeOneMore(t, o - {a}, a, o[a]);
    assert (o - {a})[a := o[a]] == o;
  }

  lemma {:induction false} TotalMerged(t: Table, o: Table) returns (wraps: nat)
    ensures Total(Merged(t, o)) + wraps * TWO_128 == Total(t) + Total(o)
    decreases |o|
  {
    if o == map[] {
      assert Merged(t, o) == t;
      wraps := 0;
    } else {
      var a :| a in o;
      wraps := TotalMerged(t, o - {a});
      MergedWithout(t, o, a);
      var more := TotalAdded(Merged(t, o - {a}), a, o[a]);
      TotalWithout(o, a);
      wraps := wraps + more;
    }
  }

  // ---------- runs ----------

  datatype Call =
    | Add(a: Account, x: Weight)
    | AddDual(a: Account, x: Weight, b: Account, y: Weight)
    | Copy(o: Table)

  function Next(t: Table, c: Call): Table
  {
    match c
    case Add(a, x) => Added(t, a, x)
    case AddDual(a, x, b, y) => Added(Added(t, a, x), b, y)
    case Copy(o) => Merged(t, o)
  }

  function After(t: Table, run: seq<Call>): Table
    decreases |run|
  {
    if run == [] then t else After(Next(t, run[0]), run[1..])
  }

  /** What a call adds in all, and what it adds to one representative. */
  ghost function Sum(c: Call): nat
  {
    match c
    case Add(_, x) => x
    case AddDual(_, x, _, y) => x + y
    case Copy(o) => Total(o)
  }

  function Share(c: Call, k: Account): nat
  {
    match c
    case Add(a, x) => if a == k then x else 0
    case AddDual(a, x, b, y) => (if a == k then x else 0) + (if b == k then y else 0)
    case Copy(o) => Get(o, k)
  }

  ghost function Sums(run: seq<Call>): nat
  {
    if run == [] then 0 else Sum(run[0]) + Sums(run[1..])
  }

  function Shares(run: seq<Call>, k: Account): nat
  {
    if run == [] then 0 else Share(run[0], k) + Shares(run[1..], k)
  }

  lemma NextTotal(t: Table, c: Call) returns (wraps: nat)
    ensures Total(Next(t, c)) + wraps * TWO_128 == Total(t) + Sum(c)
  {
    match c
    case Add(a, x) => wraps := TotalAdded(t, a, x);
    case AddDual(a, x, b, y) =>
      wraps := TotalAdded(t, a, x);
      var more := TotalAdded(Added(t, a, x), b, y);
      wraps := wraps + more;
    case Copy(o) => wraps := TotalMerged(t, o);
  }

  lemma {:induction false} RunWraps(t: Table, run: seq<Call>) returns (wraps: nat)
    ensures Total(After(t, run)) + wraps * TWO_128 == Total(t) + Sums(run)
    decreases |run|
  {
    wraps := 0;
    if run != [] {
      wraps := NextTotal(t, run[0]);
      var more := RunWraps(Next(t, run[0]), run[1..]);
      wraps := wraps + more;
    }
  }

  lemma WrapsVanish(x: nat, wraps: nat)
    ensures (x + wraps * TWO_128) % TWO_128 == x % TWO_128
  {
  }

  /** Modulo 2^128 the total weight changes by exactly the amounts added, over every run, and never by more. */
  lemma RunTotal(t: Table, run: seq<Call>)
    ensures Total(After(t, run)) % TWO_128 == (Total(t) + Sums(run)) % TWO_128
    ensures Total(After(t, run)) <= Total(t) + Sums(run)
  {
    var wraps := RunWraps(t, run);
    WrapsVanish(Total(After(t, run)), wraps);
  }

  lemma NextShare(t: Table, c: Call, k: Account) returns (wraps: nat)
    ensures Get(Next(t, c), k) + wraps * TWO_128 == Get(t, k) + Share(c, k)
  {
    var off := Get(t, k) + Share(c, k) - Get(Next(t, c), k);
    wraps := if off == 0 then 0 else if off == TWO_128 then 1 else 2;
  }

  lemma {:induction false} ShareWraps(t: Table, run: seq<Call>, k: Account) returns (wraps: nat)
    ensures Get(After(t, run), k) + wraps * TWO_128 == Get(t, k) + Shares(run, k)
    decreases |run|
  {
    wraps := 0;
    if run != [] {
      wraps := NextShare(t, run[0], k);
      var more := ShareWraps(Next(t, run[0]), run[1..], k);
      wraps := wraps + more;
    }
  }

  /** And so does the weight of each representative. */
  lemma RunShare(t: Table, run: seq<Call>, k: Account)
    ensures Get(After(t, run), k) == (Get(t, k) + Shares(run, k)) % TWO_128
  {
    var wraps := ShareWraps(t, run, k);
    WrapsVanish(Get(After(t, run), k), wraps);
  }

  /** As long as the amounts fit 128 bits together, the total is exact. */
  lemma ExactTotal(run: seq<Call>)
    requires Sums(run) < TWO_128
    ensures Total(After(map[], run)) == Sums(run)
  {
    RunTotal(map[], run);
  }
}
