/**
  The intrusive address map of `net/misc/utils.cc`: a hash table of chains threaded through the
  objects themselves. It is proved to hold a stack of objects for every key, which growing the table
  turns upside down, and so to behave as a finite map while no key is used twice.
 */
module AddressMap {
  import opened Common
  import opened Bits

  const WORD_BITS := 64
  const HALF_BITS := 32
  const INIT_HBITS := 4
  const MAX_HBITS := 30   // 2 << 30 is not an int
  const POINTER_SIZE := 8

  type Key = k: nat | k < 0x1_0000_0000_0000_0000

  datatype Code = Success | SystemError | InvalidUsage

  class Obj {
    const key: Key
    var next: Obj?

    constructor (key: Key)
      ensures this.key == key && next == null
    {
      this.key := key;
      next := null;
    }
  }

  const MULTIPLIER := 0x9e37_79b9_7f4a_7c13
  const INVERSE := 0x3fbd_78d0_fbf0_ae1b    // of the multiplier, modulo 2^64

  function Folded(k: nat): nat { BitXor(k, ShiftRight(k, HALF_BITS)) }

  /** The word whose top bits are the bucket. */
  function Scrambled(key: Key): (m: nat)
    ensures m < Pow2(WORD_BITS)
  {
    Folded(key) * MULTIPLIER % Pow2(WORD_BITS)
  }

  /** ncclHashPointer; for hbits = 0 the C shift is not defined and the map never asks. */
  function HashPointer(hbits: nat, key: Key): (b: nat)
    ensures b < Pow2(hbits)
  {
    var m := Scrambled(key);
    if hbits <= WORD_BITS then
      ShiftRightBelow(m, WORD_BITS - hbits, hbits);
      ShiftRight(m, WORD_BITS - hbits)
    else 0
  }

  lemma FoldedTwice(k: nat)
    requires k < Pow2(WORD_BITS)
    ensures Folded(k) < Pow2(WORD_BITS) && Folded(Folded(k)) == k
  {
    FoldTwice(k, HALF_BITS);
  }

  lemma Unscrambled(h: nat)
    requires h < Pow2(WORD_BITS)
    ensures h * MULTIPLIER % Pow2(WORD_BITS) * INVERSE % Pow2(WORD_BITS) == h
  {
    var w := Pow2(WORD_BITS);
    Pow2Of64();
    var q, m := h * MULTIPLIER / w, h * MULTIPLIER % w;
    assert h * MULTIPLIER == q * w + m;
    var e := MULTIPLIER * INVERSE / w;
    assert MULTIPLIER * INVERSE == e * w + 1;
    assert m * INVERSE == h * (e * w + 1) - q * w * INVERSE;
    assert m * INVERSE == (h * e - q * INVERSE) * w + h;
    ModOf(m * INVERSE, w, h * e - q * INVERSE, h);
  }

  lemma Pow2Of64()
    ensures Pow2(WORD_BITS) == 0x1_0000_0000_0000_0000
  {
    assert Pow2(8) == 256;
    Pow2Add(8, 8);
    Pow2Add(16, 16);
    Pow2Add(32, 32);
  }

  /** Hashing loses nothing but the bits that are cut off: no two keys have the same word. */
  lemma ScrambledIsInjective(a: Key, b: Key)
    requires Scrambled(a) == Scrambled(b)
    ensures a == b
  {
    Pow2Of64();
    FoldedTwice(a);
    FoldedTwice(b);
    Unscrambled(Folded(a));
    Unscrambled(Folded(b));
  }

  /** Doubling the table splits every bucket in two. */
  lemma DoublingSplits(hbits: nat, key: Key)
    requires hbits < WORD_BITS
    ensures HashPointer(hbits, key) == HashPointer(hbits + 1, key) / 2
  {
    ShiftRightNext(Scrambled(key), WORD_BITS - hbits - 1);
  }

  lemma {:induction false} ShiftRightNext(x: nat, n: nat)
    ensures ShiftRight(x, n + 1) == ShiftRight(x, n) / 2
  {
    if n > 0 { ShiftRightNext(x / 2, n - 1); }
  }

  /** Any function from keys to buckets serves the map. */
  type Hash = (nat, Key) -> nat

  ghost predicate InRange(hash: Hash) { forall n: nat, k: Key :: hash(n, k) < Pow2(n) }

  /** The chain `c` hangs off `head`, linked in order and ending in null. */
  ghost predicate Linked(head: Obj?, c: seq<Obj>)
    reads c
  {
    && head == (if c == [] then null else c[0])
    && forall i :: 0 <= i < |c| ==> LinkAt(c, i)
  }

  ghost predicate LinkAt(c: seq<Obj>, i: int)
    reads c
  {
    0 <= i < |c| ==> c[i].next == if i + 1 < |c| then c[i + 1] else null
  }

  ghost predicate InPlace(c: seq<Obj>, i: nat, b: nat, hash: Hash, hbits: nat, contents: set<Obj>) {
    && i < |c|
    && c[i] in contents && hash(hbits, c[i].key) == b
  }

  /** A chain of bucket `b`: mapped objects that hash to `b`, none twice. */
  ghost predicate ChainOk(c: seq<Obj>, b: nat, hash: Hash, hbits: nat, contents: set<Obj>) {
    && (forall i: nat :: i < |c| ==> InPlace(c, i, b, hash, hbits, contents))
    && (forall i: nat, j: nat :: i < j < |c| ==> c[i] != c[j])
  }

  /** The chains hold exactly the contents, each object in the bucket of its key. */
  ghost predicate Buckets(chains: seq<seq<Obj>>, hash: Hash, hbits: nat, contents: set<Obj>) {
    && InRange(hash) && |chains| == Pow2(hbits)
    && (forall b: nat :: b < |chains| ==> ChainOk(chains[b], b, hash, hbits, contents))
    && (forall o :: o in contents ==> o in chains[hash(hbits, o.key)])
  }

  ghost predicate BucketOk(table: seq<Obj?>, chains: seq<seq<Obj>>, b: nat, contents: set<Obj>)
    reads contents
  {
    && b < |chains| && b < |table|
    && (forall i: nat :: i < |chains[b]| ==> chains[b][i] in contents)
    && Linked(table[b], chains[b])
  }

  /** The table holds exactly the contents. */
  ghost predicate TableOk(table: seq<Obj?>, chains: seq<seq<Obj>>, hash: Hash, hbits: nat, contents: set<Obj>)
    reads contents
  {
    && Buckets(chains, hash, hbits, contents) && |table| == |chains|
    && forall b: nat :: b < |chains| ==> BucketOk(table, chains, b, contents)
  }

  // ------------------------------------------------------------- objects under one key

  /** The objects of a chain under one key, in chain order. */
  ghost function Under(c: seq<Obj>, key: Key): seq<Obj> {
    if c == [] then [] else Own(c[0], key) + Under(c[1..], key)
  }

  ghost function Own(o: Obj, key: Key): seq<Obj> { if o.key == key then [o] else [] }

  lemma {:induction false} UnderAppend(c: seq<Obj>, o: Obj, key: Key)
    ensures Under(c + [o], key) == Under(c, key) + Own(o, key)
  {
    if c == [] {
      assert c + [o] == [o];
    } else {
      UnderAppend(c[1..], o, key);
      assert (c + [o])[0] == c[0] && (c + [o])[1..] == c[1..] + [o];
      var first, rest, last := Own(c[0], key), Under(c[1..], key), Own(o, key);
      assert first + (rest + last) == first + rest + last;
    }
  }

  lemma {:induction false} UnderSkip(c: seq<Obj>, i: nat, key: Key)
    requires i <= |c| && forall j: nat :: j < i ==> c[j].key != key
    ensures Under(c, key) == Under(c[i..], key)
  {
    if i > 0 {
      UnderSkip(c[1..], i - 1, key);
      assert c[1..][i - 1..] == c[i..];
    } else {
      assert c[0..] == c;
    }
  }

  /** Taking out the first object under its key. */
  lemma {:induction false} UnderWithout(c: seq<Obj>, i: nat, key: Key)
    requires i < |c| && forall j: nat :: j < i ==> c[j].key != c[i].key
    ensures Under(c, key) == Own(c[i], key) + Under(Without(c, i), key)
  {
    if i == 0 {
      assert Without(c, 0) == c[1..];
    } else {
      UnderWithout(c[1..], i - 1, key);
      assert Without(c, i) == [c[0]] + Without(c[1..], i - 1);
    }
  }

  lemma {:induction false} UnderIff(c: seq<Obj>, o: Obj, key: Key)
    ensures o in Under(c, key) <==> o in c && o.key == key
  {
    if c != [] {
      UnderIff(c[1..], o, key);
      assert c == [c[0]] + c[1..];
    }
  }

  /** What the table holds under a key: the first one is found. */
  ghost function StackOf(chains: seq<seq<Obj>>, hash: Hash, hbits: nat, key: Key): seq<Obj> {
    var b := hash(hbits, key);
    if b < |chains| then Under(chains[b], key) else []
  }

  lemma StackIff(chains: seq<seq<Obj>>, hash: Hash, hbits: nat, contents: set<Obj>, o: Obj, key: Key)
    requires Buckets(chains, hash, hbits, contents)
    ensures o in StackOf(chains, hash, hbits, key) <==> o in contents && o.key == key
  {
    var b := hash(hbits, key);
    UnderIff(chains[b], o, key);
    assert ChainOk(chains[b], b, hash, hbits, contents);
    if o in chains[b] {
      var i: nat :| i < |chains[b]| && chains[b][i] == o;
      assert InPlace(chains[b], i, b, hash, hbits, contents);
    }
  }

  /** No key is used twice: the objects are the values of a map. */
  ghost predicate IsMap(contents: set<Obj>, m: map<Key, Obj>) {
    m.Values == contents && forall k :: k in m ==> m[k].key == k
  }

  lemma MapAt(contents: set<Obj>, m: map<Key, Obj>, o: Obj)
    requires IsMap(contents, m)
    ensures o in contents <==> o.key in m && m[o.key] == o
  {}

  lemma MapWith(contents: set<Obj>, m: map<Key, Obj>, o: Obj)
    requires IsMap(contents, m) && o.key !in m
    ensures IsMap(contents + {o}, m[o.key := o])
  {
    var m' := m[o.key := o];
    assert m'[o.key] == o;
    forall q | q in contents ensures q in m'.Values { assert m'[q.key] == q; }
  }

  lemma MapWithout(contents: set<Obj>, m: map<Key, Obj>, o: Obj)
    requires IsMap(contents, m) && o in contents
    ensures IsMap(contents - {o}, m - {o.key})
  {
    var m' := m - {o.key};
    forall q | q in contents - {o} ensures q in m'.Values {
      MapAt(contents, m, q);
      MapAt(contents, m, o);
      assert m'[q.key] == q;
    }
  }

  class IntruAddressMap {
    const hash: Hash
    var hbits: nat
    var count: nat
    var table: seq<Obj?>                 // [] is the null pointer
    ghost var chains: seq<seq<Obj>>
    ghost var contents: set<Obj>

    ghost predicate Valid()
      reads this, contents
    {
      && InRange(hash)
      && count == |contents|
      && (hbits == 0 <==> count == 0)
      && (hbits == 0 <==> table == []) && (hbits == 0 ==> chains == [])
      && (hbits > 0 ==>
            && hbits <= MAX_HBITS && count <= 2 * Pow2(hbits)
            && TableOk(table, chains, hash, hbits, contents))
    }

    /** The objects under a key, the one that is found first. */
    ghost function Stack(key: Key): seq<Obj>
      reads this
    {
      StackOf(chains, hash, hbits, key)
    }

    constructor ()
      ensures Valid() && contents == {} && hash == HashPointer
    {
      hash := HashPointer;
      hbits, count, table := 0, 0, [];
      chains, contents := [], {};
    }

    /** ncclIntruAddressMapFind_untyped */
    method Find(keySize: int, key: Key) returns (r: Code, found: Obj?)
      requires Valid()
      ensures r == if 0 < keySize <= POINTER_SIZE then Success else InvalidUsage
      ensures r == Success ==> found == if Stack(key) == [] then null else Stack(key)[0]
      ensures r == Success && found == null ==> forall o :: o in contents ==> o.key != key
      ensures forall m :: r == Success && IsMap(contents, m) ==> found == if key in m then m[key] else null
      ensures r != Success ==> found == null
    {
      found := null;
      if keySize <= 0 || keySize > POINTER_SIZE {
        return InvalidUsage, null;
      }
      r := Success;
      if hbits == 0 {
        return;
      }
      var b := hash(hbits, key);
      ghost var c := chains[b];
      assert BucketOk(table, chains, b, contents) && ChainOk(c, b, hash, hbits, contents);
      var obj := table[b];
      ghost var i: nat := 0;
      while obj != null
        invariant i <= |c| && obj == (if i < |c| then c[i] else null)
        invariant forall j: nat :: j < i ==> c[j].key != key
        decreases |c| - i
      {
        assert InPlace(c, i, b, hash, hbits, contents) && LinkAt(c, i);
        if obj.key == key {
          UnderSkip(c, i, key);
          return Success, obj;
        }
        obj := obj.next;
        i := i + 1;
      }
      UnderSkip(c, i, key);
    }

    /** Move the objects of bucket `i` over to the new table. */
    method MoveBucket(i: nat, table0: seq<Obj?>, ghost chains0: seq<seq<Obj>>, newHbits: nat,
                      ghost done0: set<Obj>)
      returns (newTable: seq<Obj?>, ghost newChains: seq<seq<Obj>>, ghost done: set<Obj>)
      requires Buckets(chains, hash, hbits, contents) && i < |table| == |chains|
      requires TableOk(table0, chains0, hash, newHbits, done0) && Pending(chains, contents, done0, i, 0)
      requires forall b: nat :: i <= b < |chains| ==> BucketOk(table, chains, b, contents)
      requires Turning(chains, hash, hbits, chains0, newHbits, i, 0)
      modifies contents
      ensures TableOk(newTable, newChains, hash, newHbits, done) && Pending(chains, contents, done, i + 1, 0)
      ensures Turning(chains, hash, hbits, newChains, newHbits, i + 1, 0)
      ensures forall b: nat :: i < b < |chains| ==> BucketOk(table, chains, b, contents)
    {
      newTable, newChains, done := table0, chains0, done0;
      ghost var c := chains[i];
      assert BucketOk(table, chains, i, contents);
      var obj := table[i];
      ghost var j: nat := 0;
      while obj != null
        invariant j <= |c| && obj == if j < |c| then c[j] else null
        invariant forall m: nat :: j <= m < |c| ==> LinkAt(c, m)
        invariant TableOk(newTable, newChains, hash, newHbits, done) && Pending(chains, contents, done, i, j)
        invariant forall b: nat :: i < b < |chains| ==> BucketOk(table, chains, b, contents)
        invariant Turning(chains, hash, hbits, newChains, newHbits, i, j)
        decreases |c| - j
      {
        MoveOne(chains, hash, hbits, contents, done, i, j);
        assert LinkAt(c, j);
        var next := obj.next;
        label before:
        TurnOne(chains, hash, hbits, newChains, newHbits, i, j);
        newTable, newChains := Link(newTable, newChains, hash, newHbits, done, obj);
        done := done + {obj};
        forall m: nat | j + 1 <= m < |c| ensures LinkAt(c, m) {
          OnePlace(chains, hash, hbits, contents, i, j, i, m);
          assert old@before(LinkAt(c, m));
        }
        forall b: nat | i < b < |chains| ensures BucketOk(table, chains, b, contents) {
          assert old@before(BucketOk(table, chains, b, contents));
          forall m | 0 <= m < |chains[b]| ensures LinkAt(chains[b], m) {
            OnePlace(chains, hash, hbits, contents, i, j, b, m);
            assert old@before(LinkAt(chains[b], m));
          }
        }
        obj := next;
        j := j + 1;
      }
      NextBucket(chains, contents, done, i);
      TurnNext(chains, hash, hbits, newChains, newHbits, i);
    }

    /** A table of twice the buckets with every object moved over, chains reversed as it goes. */
    method BuildTable() returns (newTable: seq<Obj?>, ghost newChains: seq<seq<Obj>>)
      requires Valid() && hbits > 0
      modifies contents
      ensures TableOk(newTable, newChains, hash, hbits + 1, contents)
      ensures Turned(chains, hash, hbits, newChains, hbits + 1)
    {
      var newHbits := hbits + 1;
      newTable := seq(Pow2(newHbits), i => null);
      newChains := seq(Pow2(newHbits), i => []);
      ghost var done: set<Obj> := {};
      EmptyTable(newTable, newChains, hash, newHbits);
      var i: nat := 0;
      while i < |table|
        invariant i <= |table|
        invariant TableOk(newTable, newChains, hash, newHbits, done)
        invariant Pending(chains, contents, done, i, 0)
        invariant Turning(chains, hash, hbits, newChains, newHbits, i, 0)
        invariant forall b: nat :: i <= b < |chains| ==> BucketOk(table, chains, b, contents)
      {
        newTable, newChains, done := MoveBucket(i, newTable, newChains, newHbits, done);
        i := i + 1;
      }
      AllMoved(chains, hash, hbits, contents, done);
      AllTurned(chains, hash, hbits, newChains, newHbits);
    }

    /** Double the buckets. */
    method Rehash()
      requires Valid() && 0 < hbits < MAX_HBITS
      modifies this`table, this`hbits, this`chains, contents
      ensures hbits == old(hbits) + 1 && TableOk(table, chains, hash, hbits, contents)
      ensures Turned(old(chains), hash, old(hbits), chains, hbits)
    {
      ghost var newChains;
      var newTable;
      newTable, newChains := BuildTable();
      table, hbits, chains := newTable, hbits + 1, newChains;
    }

    /** The next insertion doubles the table. */
    predicate Grows()
      reads this
    {
      hbits > 0 && count + 1 > 2 * Pow2(hbits)
    }

    /** Every key has the stack it had at `chains0` and `hbits0`, upside down if `grew`. */
    ghost predicate Restacked(chains0: seq<seq<Obj>>, hbits0: nat, grew: bool)
      reads this
    {
      if grew then Turned(chains0, hash, hbits0, chains, hbits)
      else forall k :: Stack(k) == StackOf(chains0, hash, hbits0, k)
    }

    /**
      ncclIntruAddressMapInsert_untyped; `canAllocate` is whether calloc or malloc succeeds. The object
      goes on top of the stack of its key. A map gets a new entry.
     */
    method Insert(keySize: int, key: Key, o: Obj?, canAllocate: bool) returns (r: Code)
      requires Valid() && hbits < MAX_HBITS
      requires o != null ==> o.key == key && o !in contents
      modifies this, contents, if o == null then {} else {o}
      ensures Valid()
      ensures r == InvalidUsage <==> o == null || keySize <= 0 || keySize > POINTER_SIZE
      ensures r == SystemError <==> r != InvalidUsage && !canAllocate && (old(hbits) == 0 || old(Grows()))
      ensures r == Success ==> contents == old(contents) + {o}
      ensures forall k :: r == Success ==>
        Stack(k) == Own(o, k) + if old(Grows()) then Reverse(old(Stack(k))) else old(Stack(k))
      ensures forall m :: r == Success && IsMap(old(contents), m) && key !in m ==> IsMap(contents, m[key := o])
      ensures r != Success ==>
        && contents == old(contents) && count == old(count) && hbits == old(hbits) && table == old(table)
        && chains == old(chains)
    {
      if o == null || keySize <= 0 || keySize > POINTER_SIZE {
        return InvalidUsage;
      }
      var ok := MakeRoom(canAllocate);
      if !ok {
        return SystemError;
      }
      PushOn(o);
      return Success;
    }

    /** The object becomes the first of its bucket. */
    method PushOn(o: Obj)
      requires 0 < hbits <= MAX_HBITS && count == |contents| && count + 1 <= 2 * Pow2(hbits) && o !in contents
      requires TableOk(table, chains, hash, hbits, contents)
      modifies this`table, this`count, this`chains, this`contents, o
      ensures Valid() && hbits == old(hbits) && contents == old(contents) + {o}
      ensures forall k :: Stack(k) == Own(o, k) + old(Stack(k))
      ensures forall m :: IsMap(old(contents), m) && o.key !in m ==> IsMap(contents, m[o.key := o])
    {
      ghost var chains';
      var table';
      table', chains' := Link(table, chains, hash, hbits, contents, o);
      forall k ensures StackOf(chains', hash, hbits, k) == Own(o, k) + Stack(k) {
        PushedOn(chains, hash, hbits, o, k);
      }
      forall m | IsMap(contents, m) && o.key !in m ensures IsMap(contents + {o}, m[o.key := o]) {
        MapWith(contents, m, o);
      }
      Install(table', count + 1, chains', contents + {o});
    }

    /** A consistent table with its count replaces the current one. */
    method Install(newTable: seq<Obj?>, newCount: nat, ghost newChains: seq<seq<Obj>>, ghost newContents: set<Obj>)
      requires TableOk(newTable, newChains, hash, hbits, newContents) && newCount == |newContents|
      requires 0 < hbits <= MAX_HBITS && 0 < newCount <= 2 * Pow2(hbits)
      modifies this`table, this`count, this`chains, this`contents
      ensures Valid() && contents == newContents && chains == newChains
    {
      table, count, chains, contents := newTable, newCount, newChains, newContents;
      assert TableOk(newTable, newChains, hash, hbits, newContents);
    }

    /** Create the table on first use; keep at most two objects to a bucket. */
    method MakeRoom(canAllocate: bool) returns (ok: bool)
      requires Valid() && hbits < MAX_HBITS
      modifies this`table, this`hbits, this`chains, contents
      ensures !ok <==> !canAllocate && (old(hbits) == 0 || old(Grows()))
      ensures ok ==> 0 < hbits <= MAX_HBITS && count + 1 <= 2 * Pow2(hbits)
      ensures ok ==> TableOk(table, chains, hash, hbits, contents)
      ensures ok ==> Restacked(old(chains), old(hbits), old(Grows()))
      ensures !ok ==> Valid() && hbits == old(hbits) && table == old(table) && chains == old(chains)
    {
      if hbits == 0 {
        if !canAllocate {
          return false;
        }
        hbits := INIT_HBITS;
        table := seq(Pow2(INIT_HBITS), i => null);
        chains := seq(Pow2(INIT_HBITS), i => []);
        EmptyTable(table, chains, hash, hbits);
        assert contents == {};
        assert Pow2(INIT_HBITS) == 16;
      } else if Grows() {
        if !canAllocate {
          return false;
        }
        Rehash();
      }
      return true;
    }

    /** ncclIntruAddressMapRemove_untyped */
    method Remove(keySize: int, key: Key) returns (r: Code)
      requires Valid()
      modifies this, contents
      ensures Valid()
      ensures r == if 0 < keySize <= POINTER_SIZE then Success else InvalidUsage
      ensures r == Success && old(Stack(key)) != [] ==> contents == old(contents) - {old(Stack(key))[0]}
      ensures r != Success || old(Stack(key)) == [] ==> contents == old(contents)
      ensures forall k :: r == Success ==>
        Stack(k) == if k == key && old(Stack(k)) != [] then old(Stack(k))[1..] else old(Stack(k))
      ensures forall m :: r == Success && IsMap(old(contents), m) ==> IsMap(contents, m - {key})
      ensures contents == {} ==> hbits == 0 && table == []
    {
      if keySize <= 0 || keySize > POINTER_SIZE {
        return InvalidUsage;
      }
      r := Success;
      if hbits == 0 {
        return;
      }
      var b := hash(hbits, key);
      var prev, obj;
      ghost var i;
      prev, obj, i := Scan(b, key);
      if obj != null {
        Drop(b, i, prev, obj);
      } else {
        NoneUnder(chains, hash, hbits, contents, key);
      }
    }

    /** The first object under `key` in the key's bucket and the one before it. */
    method Scan(b: nat, key: Key) returns (prev: Obj?, obj: Obj?, ghost i: nat)
      requires Valid() && hbits > 0 && b == hash(hbits, key)
      ensures b < |chains| && i <= |chains[b]| && obj == (if i < |chains[b]| then chains[b][i] else null)
      ensures prev == (if i == 0 then null else chains[b][i - 1])
      ensures forall j: nat :: j < i ==> chains[b][j].key != key
      ensures if obj == null then Stack(key) == [] else obj.key == key && Stack(key) != [] && Stack(key)[0] == obj
    {
      ghost var c := chains[b];
      assert BucketOk(table, chains, b, contents) && ChainOk(c, b, hash, hbits, contents);
      prev, obj, i := null, table[b], 0;
      while obj != null && obj.key != key
        invariant i <= |c| && obj == (if i < |c| then c[i] else null) && prev == (if i == 0 then null else c[i - 1])
        invariant forall j: nat :: j < i ==> c[j].key != key
        decreases |c| - i
      {
        assert InPlace(c, i, b, hash, hbits, contents) && LinkAt(c, i);
        prev, obj, i := obj, obj.next, i + 1;
      }
      UnderSkip(c, i, key);
    }

    /** Take `obj`, behind `prev` in bucket `b`, out; the last object out takes the table with it. */
    method Drop(b: nat, ghost i: nat, prev: Obj?, obj: Obj)
      requires Valid() && hbits > 0 && b < |table| && i < |chains[b]| && obj == chains[b][i]
      requires prev == if i == 0 then null else chains[b][i - 1]
      requires forall j: nat :: j < i ==> chains[b][j].key != obj.key
      modifies this, contents
      ensures Valid() && contents == old(contents) - {obj}
      ensures forall k :: old(Stack(k)) == Own(obj, k) + Stack(k)
      ensures forall m :: IsMap(old(contents), m) ==> IsMap(contents, m - {obj.key})
    {
      DropCount(chains, hash, hbits, contents, b, i);
      DropStacks(chains, hash, hbits, contents, b, i);
      forall m | IsMap(contents, m) ensures IsMap(contents - {obj}, m - {obj.key}) { MapWithout(contents, m, obj); }
      var table' := Unlink(table, chains, hash, hbits, contents, b, i, prev, obj);
      ghost var chains' := chains[b := Without(chains[b], i)];
      if count == 1 {
        EmptyStacks(chains', hash, hbits);
        hbits, count, table, chains, contents := 0, 0, [], [], {};
      } else {
        Install(table', count - 1, chains', contents - {obj});
      }
    }
  }

  lemma EmptyStacks(chains: seq<seq<Obj>>, hash: Hash, hbits: nat)
    requires Buckets(chains, hash, hbits, {})
    ensures forall k :: StackOf(chains, hash, hbits, k) == []
  {
    forall k ensures StackOf(chains, hash, hbits, k) == [] {
      var s := StackOf(chains, hash, hbits, k);
      if s != [] { StackIff(chains, hash, hbits, {}, s[0], k); }
    }
  }

  lemma NoneUnder(chains: seq<seq<Obj>>, hash: Hash, hbits: nat, contents: set<Obj>, key: Key)
    requires Buckets(chains, hash, hbits, contents) && StackOf(chains, hash, hbits, key) == []
    ensures forall o :: o in contents ==> o.key != key
    ensures forall m :: IsMap(contents, m) ==> key !in m && m - {key} == m
  {
    forall o | o in contents ensures o.key != key { StackIff(chains, hash, hbits, contents, o, key); }
    forall m | IsMap(contents, m) ensures key !in m {}
  }

  /** The first object under its key goes from the top of that key's stack. */
  lemma DropStacks(chains: seq<seq<Obj>>, hash: Hash, hbits: nat, contents: set<Obj>, b: nat, i: nat)
    requires Buckets(chains, hash, hbits, contents) && b < |chains| && i < |chains[b]|
    requires forall j: nat :: j < i ==> chains[b][j].key != chains[b][i].key
    ensures var chains' := chains[b := Without(chains[b], i)];
      forall k :: StackOf(chains, hash, hbits, k) == Own(chains[b][i], k) + StackOf(chains', hash, hbits, k)
  {
    var o, chains' := chains[b][i], chains[b := Without(chains[b], i)];
    assert ChainOk(chains[b], b, hash, hbits, contents) && InPlace(chains[b], i, b, hash, hbits, contents);
    forall k ensures StackOf(chains, hash, hbits, k) == Own(o, k) + StackOf(chains', hash, hbits, k) {
      if hash(hbits, k) == b { UnderWithout(chains[b], i, k); }
    }
  }

  /** Take `obj`, behind `prev` in the chain of bucket `b`, out of it. */
  method Unlink(table: seq<Obj?>, ghost chains: seq<seq<Obj>>, ghost hash: Hash, ghost hbits: nat,
                ghost contents: set<Obj>,
                b: nat, ghost i: nat, prev: Obj?, obj: Obj)
    returns (table': seq<Obj?>)
    requires TableOk(table, chains, hash, hbits, contents)
    requires b < |table| && i < |chains[b]| && obj == chains[b][i] && prev == if i == 0 then null else chains[b][i - 1]
    modifies contents
    ensures TableOk(table', chains[b := Without(chains[b], i)], hash, hbits, contents - {obj})
  {
    ghost var c := chains[b];
    assert BucketOk(table, chains, b, contents) && LinkAt(c, i);
    DropFromBucket(chains, hash, hbits, contents, b, i);
    ghost var chains' := chains[b := Without(c, i)];
    ghost var contents' := contents - {obj};
    table' := table;
    if prev == null {
      table' := table[b := obj.next];
    } else {
      prev.next := obj.next;
    }
    assert ChainOk(c, b, hash, hbits, contents);
    forall m | 0 <= m < |c| && m != i - 1 ensures LinkAt(c, m) { assert old(LinkAt(c, m)); }
    Skipped(c, i);
    forall b': nat | b' < |chains| ensures BucketOk(table', chains', b', contents') {
      assert old(BucketOk(table, chains, b', contents));
      forall m: nat | m < |chains'[b']| ensures chains'[b'][m] in contents' {
        assert ChainOk(chains'[b'], b', hash, hbits, contents') && InPlace(chains'[b'], m, b', hash, hbits, contents');
      }
      if b' == b {
        assert Linked(table'[b], Without(c, i));
      } else {
        forall m | 0 <= m < |chains[b']| ensures LinkAt(chains[b'], m) {
          assert old(LinkAt(chains[b'], m));
          if i > 0 { OnePlace(chains, hash, hbits, contents, b', m, b, i - 1); }
        }
      }
    }
  }

  /** A chain after the link to its element `i` was redirected behind it. */
  lemma Skipped(c: seq<Obj>, i: nat)
    requires i < |c| && forall m :: 0 <= m < |c| && m != i - 1 ==> LinkAt(c, m)
    requires i > 0 ==> c[i - 1].next == if i + 1 < |c| then c[i + 1] else null
    ensures forall m :: 0 <= m < |c| - 1 ==> LinkAt(Without(c, i), m)
  {
    var d := Without(c, i);
    forall m | 0 <= m < |c| - 1 ensures LinkAt(d, m) {
      assert m != i - 1 ==> LinkAt(c, m);
      assert LinkAt(c, i);
      assert m >= i ==> LinkAt(c, m + 1);
    }
  }

  function Without<T>(c: seq<T>, i: nat): seq<T>
    requires i < |c|
  {
    c[..i] + c[i + 1..]
  }

  lemma DropFromBucket(chains: seq<seq<Obj>>, hash: Hash, hbits: nat, contents: set<Obj>, b: nat, i: nat)
    requires Buckets(chains, hash, hbits, contents) && b < |chains| && i < |chains[b]|
    ensures var contents' := contents - {chains[b][i]};
      Buckets(chains[b := Without(chains[b], i)], hash, hbits, contents')
  {
    var o := chains[b][i];
    var contents' := contents - {o};
    var chains' := chains[b := Without(chains[b], i)];
    assert ChainOk(chains[b], b, hash, hbits, contents) && InPlace(chains[b], i, b, hash, hbits, contents);
    forall b': nat, m: nat | b' < |chains| && m < |chains[b']| && (b' != b || m != i)
      ensures InPlace(chains[b'], m, b', hash, hbits, contents')
    {
      assert ChainOk(chains[b'], b', hash, hbits, contents) && InPlace(chains[b'], m, b', hash, hbits, contents);
      OnePlace(chains, hash, hbits, contents, b', m, b, i);
    }
    forall b': nat | b' < |chains| ensures ChainOk(chains'[b'], b', hash, hbits, contents') {
      assert ChainOk(chains[b'], b', hash, hbits, contents);
      forall m: nat | m < |chains'[b']| ensures InPlace(chains'[b'], m, b', hash, hbits, contents') {
        assert InPlace(chains[b'], if b' == b && m >= i then m + 1 else m, b', hash, hbits, contents');
      }
    }
    forall q | q in contents' ensures q in chains'[hash(hbits, q.key)] {
      var b' := hash(hbits, q.key);
      var m: nat :| m < |chains[b']| && chains[b'][m] == q;
      if b' == b { assert chains'[b][if m < i then m else m - 1] == q; }
    }
  }

  lemma DropCount(chains: seq<seq<Obj>>, hash: Hash, hbits: nat, contents: set<Obj>, b: nat, i: nat)
    requires Buckets(chains, hash, hbits, contents) && b < |chains| && i < |chains[b]|
    ensures |contents - {chains[b][i]}| == |contents| - 1
  {
    var o := chains[b][i];
    assert ChainOk(chains[b], b, hash, hbits, contents) && InPlace(chains[b], i, b, hash, hbits, contents);
    assert contents == (contents - {o}) + {o};
  }

  lemma EmptyTable(table: seq<Obj?>, chains: seq<seq<Obj>>, hash: Hash, hbits: nat)
    requires InRange(hash) && |table| == |chains| == Pow2(hbits)
    requires forall b: nat :: b < |table| ==> table[b] == null
    requires forall b: nat :: b < |table| ==> chains[b] == []
    ensures TableOk(table, chains, hash, hbits, {})
  {}

  /** During a rehash: position `m` of chain `b` has been moved exactly if it comes before (i, j). */
  ghost predicate Moved(chains: seq<seq<Obj>>, done: set<Obj>, b: nat, m: nat, i: nat, j: nat) {
    b < |chains| && m < |chains[b]| && (chains[b][m] in done <==> b < i || (b == i && m < j))
  }

  ghost predicate Pending(chains: seq<seq<Obj>>, contents: set<Obj>, done: set<Obj>, i: nat, j: nat) {
    && done <= contents
    && (forall b: nat, m: nat :: b < |chains| && m < |chains[b]| ==> Moved(chains, done, b, m, i, j))
  }

  /** No object is in two places. */
  lemma OnePlace(chains: seq<seq<Obj>>, hash: Hash, hbits: nat, contents: set<Obj>, b: nat, m: nat, b': nat,
                 m': nat)
    requires Buckets(chains, hash, hbits, contents) && b < |chains|
    requires m < |chains[b]| && b' < |chains| && m' < |chains[b']|
    requires b != b' || m != m'
    ensures chains[b][m] != chains[b'][m']
  {
    assert ChainOk(chains[b], b, hash, hbits, contents) && ChainOk(chains[b'], b', hash, hbits, contents);
    assert InPlace(chains[b], m, b, hash, hbits, contents) && InPlace(chains[b'], m', b', hash, hbits, contents);
  }

  lemma MoveOne(chains: seq<seq<Obj>>, hash: Hash, hbits: nat, contents: set<Obj>, done: set<Obj>, i: nat,
                j: nat)
    requires Buckets(chains, hash, hbits, contents) && i < |chains|
    requires j < |chains[i]| && Pending(chains, contents, done, i, j)
    ensures var o := chains[i][j];
      && o !in done && o in contents && hash(hbits, o.key) == i
      && Pending(chains, contents, done + {o}, i, j + 1)
  {
    var o := chains[i][j];
    assert Moved(chains, done, i, j, i, j);
    assert ChainOk(chains[i], i, hash, hbits, contents) && InPlace(chains[i], j, i, hash, hbits, contents);
    var done', j' := done + {o}, j + 1;
    forall b: nat, m: nat | b < |chains| && m < |chains[b]| ensures Moved(chains, done', b, m, i, j') {
      assert Moved(chains, done, b, m, i, j);
      if b != i || m != j { OnePlace(chains, hash, hbits, contents, b, m, i, j); }
    }
  }

  lemma NextBucket(chains: seq<seq<Obj>>, contents: set<Obj>, done: set<Obj>, i: nat)
    requires i < |chains| && Pending(chains, contents, done, i, |chains[i]|)
    ensures Pending(chains, contents, done, i + 1, 0)
  {
    var i' := i + 1;
    forall b: nat, m: nat | b < |chains| && m < |chains[b]| ensures Moved(chains, done, b, m, i', 0) {
      assert Moved(chains, done, b, m, i, |chains[i]|);
    }
  }

  lemma AllMoved(chains: seq<seq<Obj>>, hash: Hash, hbits: nat, contents: set<Obj>, done: set<Obj>)
    requires Buckets(chains, hash, hbits, contents) && Pending(chains, contents, done, |chains|, 0)
    ensures done == contents
  {
    forall o | o in contents ensures o in done {
      var b := hash(hbits, o.key);
      var m: nat :| m < |chains[b]| && chains[b][m] == o;
      assert Moved(chains, done, b, m, |chains|, 0);
    }
  }

  ghost function Pushed(chains: seq<seq<Obj>>, b: nat, o: Obj): seq<seq<Obj>> {
    if b < |chains| then chains[b := [o] + chains[b]] else chains
  }

  /** A push is a push on the stack of its key. */
  lemma PushedOn(chains: seq<seq<Obj>>, hash: Hash, hbits: nat, o: Obj, key: Key)
    requires hash(hbits, o.key) < |chains|
    ensures StackOf(Pushed(chains, hash(hbits, o.key), o), hash, hbits, key)
      == Own(o, key) + StackOf(chains, hash, hbits, key)
  {
    var b := hash(hbits, o.key);
    assert ([o] + chains[b])[1..] == chains[b];
  }

  /** The part of chain `b` moved over when the rehash is at position (i, j). */
  ghost function Gone(chains: seq<seq<Obj>>, b: nat, i: nat, j: nat): seq<Obj>
    requires b < |chains|
  {
    if b < i then chains[b] else if b == i && j <= |chains[b]| then chains[b][..j] else []
  }

  /** Every stack is upside down in the new table. */
  ghost predicate Turned(chains: seq<seq<Obj>>, hash: Hash, hbits: nat, newChains: seq<seq<Obj>>, newHbits: nat) {
    forall k :: StackOf(newChains, hash, newHbits, k) == Reverse(StackOf(chains, hash, hbits, k))
  }

  ghost predicate Turning(chains: seq<seq<Obj>>, hash: Hash, hbits: nat, newChains: seq<seq<Obj>>, newHbits: nat,
                          i: nat, j: nat)
  {
    forall k :: Upturned(chains, hash, hbits, newChains, newHbits, i, j, k)
  }

  lemma TurnOne(chains: seq<seq<Obj>>, hash: Hash, hbits: nat, newChains: seq<seq<Obj>>, newHbits: nat, i: nat, j: nat)
    requires i < |chains| && j < |chains[i]| && hash(hbits, chains[i][j].key) == i
    requires hash(newHbits, chains[i][j].key) < |newChains|
    requires Turning(chains, hash, hbits, newChains, newHbits, i, j)
    ensures var o := chains[i][j];
      Turning(chains, hash, hbits, Pushed(newChains, hash(newHbits, o.key), o), newHbits, i, j + 1)
  {
    var o, j' := chains[i][j], j + 1;
    var chains' := Pushed(newChains, hash(newHbits, o.key), o);
    forall k ensures Upturned(chains, hash, hbits, chains', newHbits, i, j', k) {
      UpturnedStep(chains, hash, hbits, newChains, newHbits, i, j, k);
    }
  }

  lemma TurnNext(chains: seq<seq<Obj>>, hash: Hash, hbits: nat, newChains: seq<seq<Obj>>, newHbits: nat, i: nat)
    requires i < |chains| && Turning(chains, hash, hbits, newChains, newHbits, i, |chains[i]|)
    ensures Turning(chains, hash, hbits, newChains, newHbits, i + 1, 0)
  {
    var i', n := i + 1, |chains[i]|;
    forall k ensures Upturned(chains, hash, hbits, newChains, newHbits, i', 0, k) {
      assert Upturned(chains, hash, hbits, newChains, newHbits, i, n, k);
      assert chains[i][..n] == chains[i];
    }
  }

  lemma AllTurned(chains: seq<seq<Obj>>, hash: Hash, hbits: nat, newChains: seq<seq<Obj>>, newHbits: nat)
    requires Turning(chains, hash, hbits, newChains, newHbits, |chains|, 0)
    ensures Turned(chains, hash, hbits, newChains, newHbits)
  {
    var n := |chains|;
    forall k ensures StackOf(newChains, hash, newHbits, k) == Reverse(StackOf(chains, hash, hbits, k)) {
      assert Upturned(chains, hash, hbits, newChains, newHbits, n, 0, k);
    }
  }

  /** What was moved under a key is upside down in the new table. */
  ghost predicate Upturned(chains: seq<seq<Obj>>, hash: Hash, hbits: nat, newChains: seq<seq<Obj>>, newHbits: nat,
                           i: nat, j: nat, key: Key)
  {
    var b := hash(hbits, key);
    b < |chains| && StackOf(newChains, hash, newHbits, key) == Reverse(Under(Gone(chains, b, i, j), key))
  }

  lemma UpturnedStep(chains: seq<seq<Obj>>, hash: Hash, hbits: nat, newChains: seq<seq<Obj>>, newHbits: nat,
                     i: nat, j: nat, key: Key)
    requires i < |chains| && j < |chains[i]| && hash(hbits, chains[i][j].key) == i
    requires hash(newHbits, chains[i][j].key) < |newChains|
    requires Upturned(chains, hash, hbits, newChains, newHbits, i, j, key)
    ensures var o := chains[i][j];
      Upturned(chains, hash, hbits, Pushed(newChains, hash(newHbits, o.key), o), newHbits, i, j + 1, key)
  {
    var b, o := hash(hbits, key), chains[i][j];
    PushedOn(newChains, hash, newHbits, o, key);
    if b == i {
      var c := chains[i];
      assert c[..j + 1] == c[..j] + [o];
      UnderAppend(c[..j], o, key);
      if o.key == key {
        ReverseAppend(Under(c[..j], key), o);
      } else {
        assert Under(c[..j], key) + [] == Under(c[..j], key);
      }
    }
  }

  /** Put `o` in front of its bucket's chain. */
  method Link(table: seq<Obj?>, ghost chains: seq<seq<Obj>>, hash: Hash, hbits: nat, ghost contents: set<Obj>,
              o: Obj)
    returns (table': seq<Obj?>, ghost chains': seq<seq<Obj>>)
    requires TableOk(table, chains, hash, hbits, contents)
    requires o !in contents
    modifies o`next
    ensures TableOk(table', chains', hash, hbits, contents + {o})
    ensures chains' == Pushed(chains, hash(hbits, o.key), o)
  {
    var b := hash(hbits, o.key);
    ghost var c := chains[b];
    ghost var contents' := contents + {o};
    assert BucketOk(table, chains, b, contents);
    o.next := table[b];
    table' := table[b := o];
    AddToBucket(chains, hash, hbits, contents, o);
    chains' := chains[b := [o] + c];
    forall b': nat | b' < |chains| ensures BucketOk(table', chains', b', contents') {
      assert old(BucketOk(table, chains, b', contents));
      if b' == b {
        forall i | 0 <= i < |c| + 1 ensures LinkAt([o] + c, i) { assert i > 0 ==> old(LinkAt(c, i - 1)); }
      } else {
        forall i | 0 <= i < |chains[b']| ensures LinkAt(chains[b'], i) { assert old(LinkAt(chains[b'], i)); }
      }
      forall i: nat | i < |chains'[b']| ensures chains'[b'][i] in contents' {
        assert ChainOk(chains'[b'], b', hash, hbits, contents') && InPlace(chains'[b'], i, b', hash, hbits, contents');
      }
    }
  }

  lemma AddToBucket(chains: seq<seq<Obj>>, hash: Hash, hbits: nat, contents: set<Obj>, o: Obj)
    requires Buckets(chains, hash, hbits, contents) && o !in contents
    ensures var b := hash(hbits, o.key);
      Buckets(chains[b := [o] + chains[b]], hash, hbits, contents + {o})
  {
    var b, contents' := hash(hbits, o.key), contents + {o};
    var chains' := chains[b := [o] + chains[b]];
    forall b': nat | b' < |chains| ensures ChainOk(chains'[b'], b', hash, hbits, contents') {
      var c := chains[b'];
      assert ChainOk(c, b', hash, hbits, contents);
      forall i: nat | i < |c| ensures InPlace(c, i, b', hash, hbits, contents') && c[i] != o {
        assert InPlace(c, i, b', hash, hbits, contents);
      }
      if b' == b {
        forall i: nat | i < |c| + 1 ensures InPlace([o] + c, i, b', hash, hbits, contents') {
          assert i > 0 ==> InPlace(c, i - 1, b', hash, hbits, contents');
        }
      }
    }
    forall q | q in contents' ensures q in chains'[hash(hbits, q.key)] {
      if q == o { assert chains'[b][0] == o; }
      else {
        var i :| 0 <= i < |chains[hash(hbits, q.key)]| && chains[hash(hbits, q.key)][i] == q;
        assert hash(hbits, q.key) == b ==> chains'[b][i + 1] == q;
      }
    }
  }
}
