/** The chained hash table with its cursor (libtrn/hash.cpp). Entries hold no key: the comparator
    reads it from the datum. */
module HashTable {

  datatype Option<T> = None | Some(value: T)

  /** A datum and the length of its key. */
  datatype Slot<D> = Slot(data: D, len: nat)

  function Hash(key: string): nat {
    if key == "" then 0 else (Hash(key[..|key| - 1]) + key[|key| - 1] as int) % 0x1_0000_0000
  }

  function Sum(key: string): nat {
    if key == "" then 0 else key[0] as int + Sum(key[1..])
  }

  lemma {:induction false} SumMore(key: string, c: char)
    ensures Sum(key + [c]) == Sum(key) + c as int
  {
    if key == "" {
      assert key + [c] == [c];
    } else {
      assert (key + [c])[1..] == key[1..] + [c];
      SumMore(key[1..], c);
    }
  }

  /** A key's characters added up, in 32 bits. */
  lemma {:induction false} HashIsSum(key: string)
    ensures Hash(key) == Sum(key) % 4294967296
  {
    if key != "" {
      var n := |key| - 1;
      HashIsSum(key[..n]);
      SumMore(key[..n], key[n]);
      assert key == key[..n] + [key[n]];
    }
  }

  function Home(key: string, n: nat): (b: nat)
    requires n > 0
    ensures b < n
  {
    Hash(key) % n
  }

  // ---- One bucket ---------------------------------------------------------------------------------------

  /** The first slot of the key, or the length. */
  function Find<D(!new)>(slots: seq<Slot<D>>, keyOf: D -> string, key: string): (i: nat)
    ensures i <= |slots|
    ensures forall j :: 0 <= j < i ==> !(slots[j].len == |key| && keyOf(slots[j].data) == key)
    ensures i < |slots| ==> slots[i].len == |key| && keyOf(slots[i].data) == key
  {
    if slots == [] || (slots[0].len == |key| && keyOf(slots[0].data) == key) then 0
    else 1 + Find(slots[1..], keyOf, key)
  }

  /** Each slot knows the length of its key, and no two have the same. */
  ghost predicate BucketOk<D(!new)>(slots: seq<Slot<D>>, keyOf: D -> string) {
    && (forall i :: 0 <= i < |slots| ==> slots[i].len == |keyOf(slots[i].data)|)
    && (forall i, j :: 0 <= i < j < |slots| ==> keyOf(slots[i].data) != keyOf(slots[j].data))
  }

  /** What a bucket has for a key. */
  function Look<D(!new)>(slots: seq<Slot<D>>, keyOf: D -> string, key: string): Option<D> {
    var i := Find(slots, keyOf, key);
    if i < |slots| then Some(slots[i].data) else None
  }

  function Put<D(!new)>(slots: seq<Slot<D>>, i: nat, data: D, len: nat): seq<Slot<D>>
    requires i <= |slots|
  {
    if i == |slots| then slots + [Slot(data, len)] else slots[i := Slot(data, slots[i].len)]
  }

  function Drop<D(!new)>(slots: seq<Slot<D>>, i: nat): seq<Slot<D>>
    requires i < |slots|
  {
    slots[..i] + slots[i + 1..]
  }

  /** In a good bucket a key's slot is found wherever it is. */
  lemma FoundAt<D(!new)>(slots: seq<Slot<D>>, keyOf: D -> string, i: nat)
    requires BucketOk(slots, keyOf) && i < |slots|
    ensures Find(slots, keyOf, keyOf(slots[i].data)) == i
  {
    var j := Find(slots, keyOf, keyOf(slots[i].data));
    assert slots[i].len == |keyOf(slots[i].data)|;
  }

  lemma NotFound<D(!new)>(slots: seq<Slot<D>>, keyOf: D -> string, key: string)
    requires BucketOk(slots, keyOf)
    ensures Find(slots, keyOf, key) == |slots| <==> forall i :: 0 <= i < |slots| ==> keyOf(slots[i].data) != key
  {
    forall i | 0 <= i < |slots| && keyOf(slots[i].data) == key ensures Find(slots, keyOf, key) == i {
      FoundAt(slots, keyOf, i);
    }
  }

  /** Putting a datum under its key changes what is found for that key only. */
  lemma PutLooks<D(!new)>(slots: seq<Slot<D>>, keyOf: D -> string, key: string, data: D, k: string)
    requires BucketOk(slots, keyOf) && keyOf(data) == key
    ensures
      var slots' := Put(slots, Find(slots, keyOf, key), data, |key|);
      BucketOk(slots', keyOf) && Look(slots', keyOf, k) == if k == key then Some(data) else Look(slots, keyOf, k)
  {
    var i := Find(slots, keyOf, key);
    var slots' := Put(slots, i, data, |key|);
    NotFound(slots, keyOf, key);
    assert BucketOk(slots', keyOf);
    if k == key {
      FoundAt(slots', keyOf, i);
    } else {
      forall j | 0 <= j < |slots| && keyOf(slots[j].data) == k ensures slots[j] in slots' {
        assert slots'[j] == slots[j];
      }
      OthersFound(slots, slots', keyOf, k);
    }
  }

  /** Two good buckets that agree about a key's slots agree about the key. */
  lemma OthersFound<D(!new)>(slots: seq<Slot<D>>, slots': seq<Slot<D>>, keyOf: D -> string, k: string)
    requires BucketOk(slots, keyOf) && BucketOk(slots', keyOf)
    requires forall i :: 0 <= i < |slots| && keyOf(slots[i].data) == k ==> slots[i] in slots'
    requires forall i :: 0 <= i < |slots'| && keyOf(slots'[i].data) == k ==> slots'[i] in slots
    ensures Look(slots', keyOf, k) == Look(slots, keyOf, k)
  {
    var i, j := Find(slots, keyOf, k), Find(slots', keyOf, k);
    if i < |slots| {
      assert slots[i] in slots';
      var m :| 0 <= m < |slots'| && slots'[m] == slots[i];
      FoundAt(slots', keyOf, m);
    }
    if j < |slots'| {
      assert slots'[j] in slots;
      var m :| 0 <= m < |slots| && slots[m] == slots'[j];
      FoundAt(slots, keyOf, m);
    }
  }

  /** Dropping a slot forgets its key only. */
  lemma DropLooks<D(!new)>(slots: seq<Slot<D>>, keyOf: D -> string, i: nat, k: string)
    requires BucketOk(slots, keyOf) && i < |slots|
    ensures
      var slots' := Drop(slots, i);
      && BucketOk(slots', keyOf)
      && Look(slots', keyOf, k) == if k == keyOf(slots[i].data) then None else Look(slots, keyOf, k)
  {
    var slots' := Drop(slots, i);
    forall j | 0 <= j < |slots'| ensures slots'[j] == slots[if j < i then j else j + 1] {}
    assert BucketOk(slots', keyOf);
    if k == keyOf(slots[i].data) {
      NotFound(slots', keyOf, k);
    } else {
      forall j | 0 <= j < |slots| && keyOf(slots[j].data) == k ensures slots[j] in slots' {
        assert slots[j] == slots'[if j < i then j else j - 1];
      }
      OthersFound(slots, slots', keyOf, k);
    }
  }

  // ---- The table ---------------------------------------------------------------------------------------------

  /** What the table has for a key. */
  function Lookup<D(!new)>(buckets: seq<seq<Slot<D>>>, keyOf: D -> string, key: string): Option<D>
    requires |buckets| > 0
  {
    Look(buckets[Home(key, |buckets|)], keyOf, key)
  }

  /** Every bucket is good, and every slot in the bucket of its key. */
  ghost predicate TableOk<D(!new)>(buckets: seq<seq<Slot<D>>>, keyOf: D -> string) {
    && |buckets| > 0 && (forall b :: 0 <= b < |buckets| ==> BucketOk(buckets[b], keyOf))
    && (forall b :: 0 <= b < |buckets| ==> AtHome(buckets[b], keyOf, b, |buckets|))
  }

  ghost predicate AtHome<D(!new)>(slots: seq<Slot<D>>, keyOf: D -> string, b: int, n: nat)
    requires n > 0
  {
    forall i :: 0 <= i < |slots| ==> Home(keyOf(slots[i].data), n) == b
  }

  /** A map is what the table finds. */
  ghost predicate Finds<D(!new)>(buckets: seq<seq<Slot<D>>>, keyOf: D -> string, m: map<string, D>)
    requires |buckets| > 0
  {
    forall k :: Lookup(buckets, keyOf, k) == if k in m then Some(m[k]) else None
  }

  lemma PutFinds<D(!new)>(buckets: seq<seq<Slot<D>>>, keyOf: D -> string, m: map<string, D>, key: string, data: D)
    requires TableOk(buckets, keyOf) && Finds(buckets, keyOf, m) && keyOf(data) == key
    ensures
      var b := Home(key, |buckets|);
      var buckets' := buckets[b := Put(buckets[b], Find(buckets[b], keyOf, key), data, |key|)];
      TableOk(buckets', keyOf) && Finds(buckets', keyOf, m[key := data])
  {
    hide BucketOk, Look, Find;
    var b := Home(key, |buckets|);
    var i := Find(buckets[b], keyOf, key);
    FindIn(buckets[b], keyOf, key);
    var slots' := Put(buckets[b], i, data, |key|);
    var buckets' := buckets[b := slots'];
    PutLooks(buckets[b], keyOf, key, data, key);
    assert AtHome(slots', keyOf, b, |buckets|);
    forall k ensures Lookup(buckets', keyOf, k) == if k in m[key := data] then Some(m[key := data][k]) else None {
      assert Lookup(buckets, keyOf, k) == if k in m then Some(m[k]) else None;
      PutLooks(buckets[b], keyOf, key, data, k);
    }
  }

  lemma FindIn<D(!new)>(slots: seq<Slot<D>>, keyOf: D -> string, key: string)
    ensures Find(slots, keyOf, key) <= |slots|
    ensures Find(slots, keyOf, key) < |slots| ==> keyOf(slots[Find(slots, keyOf, key)].data) == key
  {
  }

  lemma DropFinds<D(!new)>(buckets: seq<seq<Slot<D>>>, keyOf: D -> string, m: map<string, D>, b: nat, i: nat)
    requires TableOk(buckets, keyOf) && Finds(buckets, keyOf, m) && b < |buckets| && i < |buckets[b]|
    ensures
      var key, buckets' := keyOf(buckets[b][i].data), buckets[b := Drop(buckets[b], i)];
      TableOk(buckets', keyOf) && Finds(buckets', keyOf, m - {key}) && key in m && m[key] == buckets[b][i].data
  {
    hide BucketOk, Find, Look;
    var key, slots' := keyOf(buckets[b][i].data), Drop(buckets[b], i);
    var buckets' := buckets[b := slots'];
    assert Home(key, |buckets|) == b by { assert AtHome(buckets[b], keyOf, b, |buckets|); }
    DropLooks(buckets[b], keyOf, i, key);
    DropsHome(buckets[b], keyOf, i, b, |buckets|);
    LooksAt(buckets[b], keyOf, i);
    assert Lookup(buckets, keyOf, key) == if key in m then Some(m[key]) else None;
    forall k ensures Lookup(buckets', keyOf, k) == if k in m - {key} then Some((m - {key})[k]) else None {
      assert Lookup(buckets, keyOf, k) == if k in m then Some(m[k]) else None;
      DropLooks(buckets[b], keyOf, i, k);
    }
  }

  lemma LooksAt<D(!new)>(slots: seq<Slot<D>>, keyOf: D -> string, i: nat)
    requires BucketOk(slots, keyOf) && i < |slots|
    ensures Look(slots, keyOf, keyOf(slots[i].data)) == Some(slots[i].data)
  {
    FoundAt(slots, keyOf, i);
  }

  lemma DropsHome<D(!new)>(slots: seq<Slot<D>>, keyOf: D -> string, i: nat, b: nat, n: nat)
    requires n > 0 && i < |slots| && AtHome(slots, keyOf, b, n)
    ensures AtHome(Drop(slots, i), keyOf, b, n)
  {
    var slots' := Drop(slots, i);
    forall j | 0 <= j < |slots'| ensures Home(keyOf(slots'[j].data), n) == b {
      assert slots'[j] == slots[if j < i then j else j + 1];
    }
  }

  // ---- Walking -------------------------------------------------------------------------------------------

  /** Slot `j` of bucket `c` comes before slot `i` of bucket `b`. */
  predicate Earlier(c: int, j: int, b: int, i: int) {
    c < b || (c == b && j < i)
  }

  /** The walk has come to slot `i` of bucket `b`: what is in front has been visited, the rest not. */
  ghost predicate Walking<D(!new)>(buckets: seq<seq<Slot<D>>>, keyOf: D -> string, b: int, i: int, visited: seq<string>) {
    forall c, j :: 0 <= c < |buckets| && 0 <= j < |buckets[c]| ==>
      (keyOf(buckets[c][j].data) in visited <==> Earlier(c, j, b, i))
  }

  /** Slots with the same key are the same slot. */
  lemma OneSlot<D(!new)>(buckets: seq<seq<Slot<D>>>, keyOf: D -> string, c: nat, j: nat, b: nat, i: nat)
    requires TableOk(buckets, keyOf) && c < |buckets| && j < |buckets[c]| && b < |buckets| && i < |buckets[b]|
    requires keyOf(buckets[c][j].data) == keyOf(buckets[b][i].data)
    ensures c == b && j == i
  {
    assert AtHome(buckets[c], keyOf, c, |buckets|) && AtHome(buckets[b], keyOf, b, |buckets|);
    assert BucketOk(buckets[b], keyOf);
  }

  lemma WalkKeeps<D(!new)>(buckets: seq<seq<Slot<D>>>, keyOf: D -> string, b: nat, i: nat, visited: seq<string>, s: Slot<D>)
    requires TableOk(buckets, keyOf) && Walking(buckets, keyOf, b, i, visited) && b < |buckets| && i < |buckets[b]|
    requires keyOf(s.data) == keyOf(buckets[b][i].data)
    ensures Walking(buckets[b := buckets[b][i := s]], keyOf, b, i + 1, visited + [keyOf(s.data)])
  {
    hide TableOk;
    var buckets': seq<seq<Slot<D>>> := buckets[b := buckets[b][i := s]];
    forall c, j | 0 <= c < |buckets'| && 0 <= j < |buckets'[c]|
      ensures keyOf(buckets'[c][j].data) in visited + [keyOf(s.data)] <==> Earlier(c, j, b, i + 1)
    {
      assert keyOf(buckets'[c][j].data) == keyOf(buckets[c][j].data);
      if keyOf(buckets[c][j].data) == keyOf(s.data) {
        OneSlot(buckets, keyOf, c, j, b, i);
      }
    }
  }

  lemma WalkDrops<D(!new)>(buckets: seq<seq<Slot<D>>>, keyOf: D -> string, b: nat, i: nat, visited: seq<string>)
    requires TableOk(buckets, keyOf) && Walking(buckets, keyOf, b, i, visited) && b < |buckets| && i < |buckets[b]|
    ensures Walking(buckets[b := Drop(buckets[b], i)], keyOf, b, i, visited + [keyOf(buckets[b][i].data)])
  {
    hide TableOk;
    var key := keyOf(buckets[b][i].data);
    var buckets': seq<seq<Slot<D>>> := buckets[b := Drop(buckets[b], i)];
    forall c, j | 0 <= c < |buckets'| && 0 <= j < |buckets'[c]|
      ensures keyOf(buckets'[c][j].data) in visited + [key] <==> Earlier(c, j, b, i)
    {
      var m := if c == b && j >= i then j + 1 else j;
      assert buckets'[c][j] == buckets[c][m];
      if keyOf(buckets[c][m].data) == key {
        OneSlot(buckets, keyOf, c, m, b, i);
      }
    }
  }

  lemma WalkOn<D(!new)>(buckets: seq<seq<Slot<D>>>, keyOf: D -> string, b: nat, i: nat, visited: seq<string>)
    requires b < |buckets| && i == |buckets[b]| && Walking(buckets, keyOf, b, i, visited)
    ensures Walking(buckets, keyOf, b + 1, 0, visited)
  {
  }

  /** What is left of `m` once `visited` have been visited. */
  ghost function Swept<D>(m: map<string, D>, visit: (nat, D) -> (D, int), visited: seq<string>): map<string, D> {
    map k | k in m && (k in visited ==> visit(|k|, m[k]).1 >= 0) :: if k in visited then visit(|k|, m[k]).0 else m[k]
  }

  lemma SweptMore<D(!new)>(m: map<string, D>, visit: (nat, D) -> (D, int), visited: seq<string>, key: string)
    requires key in m && key !in visited
    ensures key in Swept(m, visit, visited) && Swept(m, visit, visited)[key] == m[key]
    ensures
      var r := visit(|key|, m[key]);
      Swept(m, visit, visited + [key])
      == if r.1 < 0 then Swept(m, visit, visited) - {key} else Swept(m, visit, visited)[key := r.0]
  {
  }

  /** When the walk is over every key there was has been visited. */
  lemma AllVisited<D(!new)>(buckets: seq<seq<Slot<D>>>, keyOf: D -> string, m: map<string, D>, visit: (nat, D) -> (D, int),
                            visited: seq<string>, k: string)
    requires TableOk(buckets, keyOf) && Finds(buckets, keyOf, Swept(m, visit, visited)) && k in m
    requires Walking(buckets, keyOf, |buckets|, 0, visited)
    ensures k in visited
  {
    hide BucketOk, AtHome;
    var b := Home(k, |buckets|);
    var i := Find(buckets[b], keyOf, k);
    FindIn(buckets[b], keyOf, k);
    var found := Lookup(buckets, keyOf, k);
    assert k !in visited ==> found.Some?;
    assert i < |buckets[b]| ==> (keyOf(buckets[b][i].data) in visited <==> Earlier(b, i, |buckets|, 0));
  }

  class Table<D(!new)> {
    const keyOf: D -> string            // what the comparator reads
    var buckets: seq<seq<Slot<D>>>
    ghost var contents: map<string, D>

    // The cursor.
    var bucket: nat
    var index: nat
    var keyLen: nat

    ghost predicate Valid()
      reads `buckets, `contents
    {
      TableOk(buckets, keyOf) && Finds(buckets, keyOf, contents)
    }

    constructor (size: nat, keyOf: D -> string)
      ensures Valid() && contents == map[] && this.keyOf == keyOf
    {
      this.keyOf := keyOf;
      buckets := seq(if size > 0 then size else 1, _ => []);
      contents := map[];
      bucket, index, keyLen := 0, 0, 0;
    }

    /** A datum comes under its key, in the place of what was there. */
    method Store(key: string, data: D)
      requires Valid() && keyOf(data) == key
      modifies `buckets, `contents
      ensures Valid() && contents == old(contents)[key := data]
    {
      hide Finds, Find, Put, TableOk;
      Buckets();
      PutFinds(buckets, keyOf, contents, key, data);
      var b := Home(key, |buckets|);
      FindIn(buckets[b], keyOf, key);
      buckets := buckets[b := Put(buckets[b], Find(buckets[b], keyOf, key), data, |key|)];
      contents := contents[key := data];
    }

    method Erase(key: string)
      requires Valid()
      modifies `buckets, `contents
      ensures Valid() && contents == old(contents) - {key}
    {
      hide Find, Drop, BucketOk, AtHome;
      var b := Home(key, |buckets|);
      var i := Find(buckets[b], keyOf, key);
      FindIn(buckets[b], keyOf, key);
      Looked(key);
      if i < |buckets[b]| {
        DropFinds(buckets, keyOf, contents, b, i);
        buckets := buckets[b := Drop(buckets[b], i)];
        contents := contents - {key};
      }
    }

    lemma Buckets()
      requires Valid()
      ensures |buckets| > 0
    {
    }

    lemma Looked(key: string)
      requires Valid()
      ensures
        var b := Home(key, |buckets|);
        key in contents <==> Find(buckets[b], keyOf, key) < |buckets[b]|
      ensures key !in contents ==> contents - {key} == contents
      ensures Lookup(buckets, keyOf, key) == if key in contents then Some(contents[key]) else None
    {
    }

    /** Where the cursor stands after a fetch of `key`. */
    ghost predicate CursorAt(key: string)
      reads `buckets, `bucket, `index, `keyLen
    {
      && |buckets| > 0 && bucket == Home(key, |buckets|) && index == Find(buckets[bucket], keyOf, key) && keyLen == |key|
    }

    method Fetch(key: string) returns (data: Option<D>)
      requires Valid()
      modifies `bucket, `index, `keyLen
      ensures Valid() && CursorAt(key) && data == if key in contents then Some(contents[key]) else None
    {
      hide Find, Finds, TableOk;
      Buckets();
      Looked(key);
      bucket, keyLen := Home(key, |buckets|), |key|;
      index := Find(buckets[bucket], keyOf, key);
      FindIn(buckets[bucket], keyOf, key);
      data := if index == |buckets[bucket]| then None else Some(buckets[bucket][index].data);
    }

    /** Stores under the key fetched last. */
    method StoreLast(data: D, ghost key: string)
      requires Valid() && CursorAt(key) && keyOf(data) == key
      modifies `buckets, `contents
      ensures Valid() && contents == old(contents)[key := data]
    {
      hide Find, Finds, TableOk, Put;
      PutFinds(buckets, keyOf, contents, key, data);
      FindIn(buckets[bucket], keyOf, key);
      buckets := buckets[bucket := Put(buckets[bucket], index, data, keyLen)];
      contents := contents[key := data];
    }

    /** Visits every entry once; those for which the visitor returns less than nothing go. */
    method Walk(visit: (nat, D) -> (D, int)) returns (ghost visited: seq<string>)
      requires Valid() && forall n, d :: keyOf(visit(n, d).0) == keyOf(d)
      modifies `buckets, `contents, `bucket, `index, `keyLen
      ensures Valid() && contents == Swept(old(contents), visit, visited)
      ensures (forall i, j :: 0 <= i < j < |visited| ==> visited[i] != visited[j])
      ensures forall k :: k in visited <==> k in old(contents)
    {
      hide TableOk, Finds, Walking, Swept;
      ghost var m := contents;
      visited := [];
      WalkStart(m, visit);
      bucket := 0;
      while bucket < |buckets|
        invariant bucket <= |buckets| == old(|buckets|) && Sweeping(m, visit, visited) && Walking(buckets, keyOf, bucket, 0, visited)
        decreases |buckets| - bucket
      {
        index := 0;
        ghost var b := bucket;
        while index < |buckets[bucket]|
          invariant bucket == b < |buckets| == old(|buckets|) && index <= |buckets[bucket]|
          invariant Sweeping(m, visit, visited) && Walking(buckets, keyOf, bucket, index, visited)
          decreases |buckets[bucket]| - index
        {
          visited := Visit(visit, m, visited);
        }
        WalkOn(buckets, keyOf, bucket, index, visited);
        bucket := bucket + 1;
      }
      forall k | k in m ensures k in visited {
        AllVisited(buckets, keyOf, m, visit, visited, k);
      }
    }

    /** How far the walk from `m` has come. */
    ghost predicate Sweeping(m: map<string, D>, visit: (nat, D) -> (D, int), visited: seq<string>)
      reads `buckets, `contents
    {
      && Valid() && contents == Swept(m, visit, visited)
      && (forall i, j :: 0 <= i < j < |visited| ==> visited[i] != visited[j]) && (forall k :: k in visited ==> k in m)
    }

    lemma WalkStart(m: map<string, D>, visit: (nat, D) -> (D, int))
      requires Valid() && contents == m
      ensures Sweeping(m, visit, []) && Walking(buckets, keyOf, 0, 0, [])
    {
      assert Swept(m, visit, []) == m;
    }

    /** One entry. */
    method Visit(visit: (nat, D) -> (D, int), ghost m: map<string, D>, ghost visited: seq<string>)
      returns (ghost visited': seq<string>)
      requires bucket < |buckets| && index < |buckets[bucket]| && Sweeping(m, visit, visited)
      requires Walking(buckets, keyOf, bucket, index, visited) && forall n, d :: keyOf(visit(n, d).0) == keyOf(d)
      modifies `buckets, `contents, `index, `keyLen
      ensures |buckets| == old(|buckets|) && index <= |buckets[bucket]| && Sweeping(m, visit, visited')
      ensures Walking(buckets, keyOf, bucket, index, visited')
      ensures |buckets[bucket]| - index < old(|buckets[bucket]| - index)
    {
      hide TableOk, Finds, Walking, Swept;
      var entry := buckets[bucket][index];
      keyLen := entry.len;
      ghost var key := keyOf(entry.data);
      EntryIs(m, visit, visited);
      var (data, r) := visit(entry.len, entry.data);
      visited' := visited + [key];
      SweptMore(m, visit, visited, key);
      if r < 0 {
        WalkDrops(buckets, keyOf, bucket, index, visited);
        DropFinds(buckets, keyOf, contents, bucket, index);
        buckets := buckets[bucket := Drop(buckets[bucket], index)];
        contents := contents - {key};
      } else {
        WalkKeeps(buckets, keyOf, bucket, index, visited, Slot(data, entry.len));
        PutFinds(buckets, keyOf, contents, key, data);
        buckets := buckets[bucket := buckets[bucket][index := Slot(data, entry.len)]];
        contents := contents[key := data];
        index := index + 1;
      }
    }

    /** The entry the walk is at has not been visited, and is found under its key. */
    lemma EntryIs(m: map<string, D>, visit: (nat, D) -> (D, int), visited: seq<string>)
      requires bucket < |buckets| && index < |buckets[bucket]| && Sweeping(m, visit, visited)
      requires Walking(buckets, keyOf, bucket, index, visited)
      ensures
        var entry := buckets[bucket][index];
        var key := keyOf(entry.data);
        && key !in visited && key in m && m[key] == entry.data && entry.len == |key|
        && Home(key, |buckets|) == bucket && Find(buckets[bucket], keyOf, key) == index
        && contents == Swept(m, visit, visited) && Put(buckets[bucket], index, entry.data, |key|) == buckets[bucket]
    {
      var entry := buckets[bucket][index];
      var key := keyOf(entry.data);
      assert AtHome(buckets[bucket], keyOf, bucket, |buckets|) && BucketOk(buckets[bucket], keyOf);
      FoundAt(buckets[bucket], keyOf, index);
      assert Lookup(buckets, keyOf, key) == Some(entry.data);
      assert key in visited <==> Earlier(bucket, index, bucket, index);
    }
  }
}
