/**
 The cache that hands out one live object per block content (blocks.cpp, block_uniquer). Objects are
 numbered; a weak reference is the number of its object and is dead once that object is. The content key of
 an object, its full hash, never changes.
 */
module BlockUniquer {
  import opened FixedBytes

  const CLEANUP_COUNT: nat := 2

  type Entries = map<Key, nat>

  /** The object that unique returns for object o with the given key. */
  function Chosen(blocks: Entries, alive: set<nat>, o: nat, key: Key): nat
  {
    if key in blocks && blocks[key] in alive then blocks[key] else o
  }

  function Registered(blocks: Entries, alive: set<nat>, o: nat, key: Key): Entries
  {
    blocks[key := Chosen(blocks, alive, o, key)]
  }

  /** after is what a clean-up that erased at most two dead entries may leave of before. */
  ghost predicate Cleaned(before: Entries, after: Entries, alive: set<nat>)
  {
    && after.Keys <= before.Keys
    && (forall k :: k in after ==> after[k] == before[k])
    && (forall k :: k in before && before[k] in alive ==> k in after)
    && |before| - CLEANUP_COUNT <= |after| <= |before|
  }

  class Uniquer {
    var blocks: Entries

    constructor ()
      ensures blocks == map[]
    {
      blocks := map[];
    }

    /** The clean-up: two entries picked at random, each erased if it is dead. */
    method CleanUp(alive: set<nat>, ghost live: Key) returns (ghost picks: seq<Key>)
      requires live in blocks && blocks[live] in alive
      modifies this
      ensures |picks| == CLEANUP_COUNT && (forall i :: 0 <= i < |picks| ==> picks[i] in old(blocks))
      ensures blocks == Erased(old(blocks), alive, picks) && |blocks| >= |old(blocks)| - CLEANUP_COUNT
    {
      ghost var all := blocks;
      picks := [];
      assert Erased(all, alive, []) == all;
      var i := 0;
      while i < CLEANUP_COUNT && |blocks| > 0
        invariant 0 <= i <= CLEANUP_COUNT && |picks| == i && live in blocks
        invariant forall j :: 0 <= j < |picks| ==> picks[j] in all
        invariant blocks == Erased(all, alive, picks) && |blocks| >= |all| - i
      {
        var pick :| pick in blocks;
        PickOne(all, alive, picks, pick);
        picks := picks + [pick];
        if blocks[pick] !in alive {
          ShrinksByOne(blocks, pick);
          blocks := blocks - {pick};
        }
        i := i + 1;
      }
      assert live in blocks.Keys;
    }

    method Unique(o: nat, key: Key, alive: set<nat>) returns (r: nat, ghost picks: seq<Key>)
      requires o in alive
      modifies this
      ensures r == Chosen(old(blocks), alive, o, key) && r in alive
      ensures |picks| == CLEANUP_COUNT && blocks == Erased(Registered(old(blocks), alive, o, key), alive, picks)
      ensures Cleaned(Registered(old(blocks), alive, o, key), blocks, alive)
      ensures key in blocks && blocks[key] == r
      ensures |blocks| <= |old(blocks)| + 1
    {
      if key in blocks && blocks[key] in alive {
        r := blocks[key];
      } else {
        r := o;
        blocks := blocks[key := o];
      }
      ghost var all := Registered(old(blocks), alive, o, key);
      assert blocks == all;
      GrowsByOne(old(blocks), key, r);
      picks := CleanUp(alive, key);
      ErasedIsSmaller(all, alive, picks);
    }
  }

  /** What is left of the entries when the dead ones among the picks are erased. */
  function Erased(m: Entries, alive: set<nat>, picks: seq<Key>): Entries
  {
    map k | k in m && (k in picks ==> m[k] in alive) :: m[k]
  }

  lemma PickOne(m: Entries, alive: set<nat>, picks: seq<Key>, pick: Key)
    requires pick in m
    ensures Erased(m, alive, picks + [pick])
         == if m[pick] in alive then Erased(m, alive, picks) else Erased(m, alive, picks) - {pick}
  {
  }

  lemma ErasedIsSmaller(m: Entries, alive: set<nat>, picks: seq<Key>)
    ensures Erased(m, alive, picks).Keys <= m.Keys && |Erased(m, alive, picks)| <= |m|
  {
    var e := Erased(m, alive, picks);
    assert e.Keys <= m.Keys;
    SubsetIsSmaller(e.Keys, m.Keys);
    assert |e| == |e.Keys| && |m| == |m.Keys|;
  }

  lemma {:induction false} SubsetIsSmaller(x: set<Key>, y: set<Key>)
    requires x <= y
    ensures |x| <= |y|
  {
    if x != {} {
      var k :| k in x;
      SubsetIsSmaller(x - {k}, y - {k});
    }
  }

  lemma GrowsByOne(m: Entries, key: Key, v: nat)
    ensures |m[key := v]| <= |m| + 1
  {
    assert m[key := v].Keys == m.Keys + {key};
    assert |m.Keys + {key}| <= |m.Keys| + 1;
    assert |m[key := v]| == |m[key := v].Keys|;
  }

  lemma ShrinksByOne(m: Entries, key: Key)
    requires key in m
    ensures |m - {key}| == |m| - 1
  {
    assert (m - {key}).Keys == m.Keys - {key};
    assert |m - {key}| == |(m - {key}).Keys|;
  }

  // ---------- any interleaving of calls and reference drops ----------

  /** handedOut: every object unique has ever returned. */
  datatype Cache = Cache(blocks: Entries, alive: set<nat>, keyOf: map<nat, Key>, handedOut: set<nat>)

  ghost predicate Created(s: Cache, s': Cache, o: nat, key: Key)
  {
    o !in s.keyOf && s' == s.(keyOf := s.keyOf[o := key], alive := s.alive + {o})
  }

  /** The last reference to o goes away. */
  ghost predicate Dropped(s: Cache, s': Cache, o: nat)
  {
    o in s.alive && s' == s.(alive := s.alive - {o})
  }

  ghost predicate Called(s: Cache, s': Cache, o: nat)
  {
    && o in s.alive && o in s.keyOf
    && Cleaned(Registered(s.blocks, s.alive, o, s.keyOf[o]), s'.blocks, s.alive)
    && s' == s.(blocks := s'.blocks, handedOut := s.handedOut + {Chosen(s.blocks, s.alive, o, s.keyOf[o])})
  }

  ghost predicate Next(s: Cache, s': Cache)
  {
    || (exists o, key: Key :: Created(s, s', o, key))
    || (exists o :: Dropped(s, s', o))
    || (exists o :: Called(s, s', o))
  }

  const EMPTY: Cache := Cache(map[], {}, map[], {})

  ghost predicate Behaviour(run: seq<Cache>)
  {
    && |run| > 0 && run[0] == EMPTY
    && forall i :: 0 <= i < |run| - 1 ==> Next(run[i], run[i + 1])
  }

  /** Every live object ever handed out is the one the map points to under its key. */
  ghost predicate Inv(s: Cache)
  {
    && s.alive <= s.keyOf.Keys && s.handedOut <= s.keyOf.Keys
    && (forall k :: k in s.blocks ==> s.blocks[k] in s.keyOf && s.keyOf[s.blocks[k]] == k && s.blocks[k] in s.handedOut)
    && (forall o :: o in s.handedOut && o in s.alive ==> s.keyOf[o] in s.blocks && s.blocks[s.keyOf[o]] == o)
  }

  lemma CalledKeepsInv(s: Cache, s': Cache, o: nat)
    requires Inv(s) && Called(s, s', o)
    ensures Inv(s')
  {
    var key := s.keyOf[o];
    var all := Registered(s.blocks, s.alive, o, key);
    forall x | x in s'.handedOut && x in s'.alive
      ensures s'.keyOf[x] in s'.blocks && s'.blocks[s'.keyOf[x]] == x
    {
      if x in s.handedOut {
        assert s.keyOf[x] in s.blocks && s.blocks[s.keyOf[x]] == x;
      }
      assert all[s.keyOf[x]] == x;
    }
  }

  lemma NextKeepsInv(s: Cache, s': Cache)
    requires Inv(s) && Next(s, s')
    ensures Inv(s')
  {
    if o, key: Key :| Created(s, s', o, key) {
    } else if o :| Dropped(s, s', o) {
    } else {
      var o :| Called(s, s', o);
      CalledKeepsInv(s, s', o);
    }
  }

  lemma {:induction false} BehaviourKeepsInv(run: seq<Cache>, i: nat)
    requires Behaviour(run) && i < |run|
    ensures Inv(run[i])
  {
    if i > 0 {
      BehaviourKeepsInv(run, i - 1);
      assert Next(run[i - 1], run[(i - 1) + 1]);
      NextKeepsInv(run[i - 1], run[i]);
    }
  }

  /** At any time, at most one object handed out for a content key is alive, and the map points to it. */
  lemma OneLiveObjectPerKey(run: seq<Cache>, i: nat, x: nat, y: nat)
    requires Behaviour(run) && i < |run|
    requires x in run[i].handedOut && x in run[i].alive && y in run[i].handedOut && y in run[i].alive
    ensures x in run[i].keyOf && y in run[i].keyOf
    ensures run[i].keyOf[x] == run[i].keyOf[y] ==> x == y
    ensures run[i].keyOf[x] in run[i].blocks && run[i].blocks[run[i].keyOf[x]] == x
  {
    BehaviourKeepsInv(run, i);
  }

  /** unique returns an object of the same content, and the one already handed out as long as it lives. */
  lemma UniqueSharesLiveObject(run: seq<Cache>, i: nat, o: nat, x: nat)
    requires Behaviour(run) && i < |run| && o in run[i].alive
    ensures o in run[i].keyOf
    ensures var r := Chosen(run[i].blocks, run[i].alive, o, run[i].keyOf[o]);
            && r in run[i].alive && r in run[i].keyOf && run[i].keyOf[r] == run[i].keyOf[o]
            && (x in run[i].handedOut && x in run[i].alive && x in run[i].keyOf && run[i].keyOf[x] == run[i].keyOf[o] ==> r == x)
  {
    BehaviourKeepsInv(run, i);
  }
}
