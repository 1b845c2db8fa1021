/** The map object: buckets of key-value pairs under the hash of the key. */
module HashMap {

  import opened Options

  type Table<K, V> = map<nat, seq<(K, V)>>

  // ----- what a table means -----

  /** The value of the first pair of a bucket with key k. */
  ghost function Find<K, V>(b: seq<(K, V)>, k: K): Option<V> {
    if b == [] then None else if b[0].0 == k then Some(b[0].1) else Find(b[1..], k)
  }

  ghost function Get<K, V>(t: Table<K, V>, hash: K -> nat, k: K): Option<V> {
    if hash(k) in t then Find(t[hash(k)], k) else None
  }

  ghost predicate Apart<K, V>(b: seq<(K, V)>) {
    forall i, j | 0 <= i < j < |b| :: b[i].0 != b[j].0
  }

  ghost predicate InPlace<K, V>(b: seq<(K, V)>, hash: K -> nat, h: nat) {
    forall i | 0 <= i < |b| :: hash(b[i].0) == h
  }

  /** The keys are pairwise distinct, each in its own hash bucket. */
  ghost predicate Sound<K, V>(t: Table<K, V>, hash: K -> nat) {
    forall h | h in t :: Apart(t[h]) && InPlace(t[h], hash, h)
  }

  ghost predicate Injective<K(!new)>(hash: K -> nat) {
    forall a, b :: hash(a) == hash(b) ==> a == b
  }

  /** The table is the finite map m. */
  ghost predicate Is<K(!new), V>(t: Table<K, V>, hash: K -> nat, m: map<K, V>) {
    Sound(t, hash) && forall k :: Get(t, hash, k) == if k in m then Some(m[k]) else None
  }

  ghost function Without<K, V>(b: seq<(K, V)>, k: K): seq<(K, V)> {
    if b == [] then [] else (if b[0].0 == k then [] else [b[0]]) + Without(b[1..], k)
  }

  /** One bucket more at the end of k's bucket, which may be new. */
  ghost function Inserted<K, V>(t: Table<K, V>, hash: K -> nat, k: K, v: V): Table<K, V> {
    t[hash(k) := (if hash(k) in t then t[hash(k)] else []) + [(k, v)]]
  }

  ghost function WithLast<K, V>(b: seq<(K, V)>, v: V): seq<(K, V)>
    requires b != []
  {
    b[|b| - 1 := (b[|b| - 1].0, v)]
  }

  // ----- buckets -----

  lemma {:induction false} FindIs<K, V>(b: seq<(K, V)>, k: K)
    ensures Find(b, k) == None <==> forall i | 0 <= i < |b| :: b[i].0 != k
    ensures Apart(b) ==> forall i | 0 <= i < |b| && b[i].0 == k :: Find(b, k) == Some(b[i].1)
  {
    if b != [] {
      FindIs(b[1..], k);
      assert forall i | 1 <= i < |b| :: b[i] == b[1..][i - 1];
    }
  }

  lemma {:induction false} FindAppend<K, V>(b: seq<(K, V)>, k: K, v: V, x: K)
    ensures Find(b + [(k, v)], x) == if Find(b, x).Some? then Find(b, x) else if x == k then Some(v) else None
  {
    if b == [] {
      assert b + [(k, v)] == [(k, v)];
    } else {
      FindAppend(b[1..], k, v, x);
      assert (b + [(k, v)])[1..] == b[1..] + [(k, v)];
    }
  }

  lemma {:induction false} FindWithLast<K, V>(b: seq<(K, V)>, v: V, x: K)
    requires b != [] && Apart(b)
    ensures Find(WithLast(b, v), x) == if x == b[|b| - 1].0 then Some(v) else Find(b, x)
  {
    var c := WithLast(b, v);
    if |b| > 1 {
      FindWithLast(b[1..], v, x);
      assert c[1..] == WithLast(b[1..], v);
    }
  }

  lemma {:induction false} FindWithout<K, V>(b: seq<(K, V)>, k: K, x: K)
    ensures Find(Without(b, k), x) == if x == k then None else Find(b, x)
  {
    if b != [] {
      FindWithout(b[1..], k, x);
      var rest := Without(b[1..], k);
      assert ([b[0]] + rest)[1..] == rest;
      assert [] + rest == rest;
    }
  }

  lemma WithoutStep<K, V>(b: seq<(K, V)>, k: K, i: nat, kept: seq<(K, V)>)
    requires i <= |b|
    ensures i == 0 && kept == [] ==> kept + Without(b[i..], k) == Without(b, k)
    ensures i == |b| ==> kept + Without(b[i..], k) == kept
    ensures i < |b| ==> kept + Without(b[i..], k) ==
                        (if b[i].0 == k then kept else kept + [b[i]]) + Without(b[i + 1..], k)
  {
    if i < |b| { assert b[i..][0] == b[i] && b[i..][1..] == b[i + 1..]; }
    if i == 0 { assert b[i..] == b; }
  }

  lemma {:induction false} WithoutSound<K, V>(b: seq<(K, V)>, k: K, hash: K -> nat, h: nat)
    requires Apart(b) && InPlace(b, hash, h)
    ensures Apart(Without(b, k)) && InPlace(Without(b, k), hash, h)
  {
    if b != [] {
      assert forall i | 0 <= i < |b[1..]| :: b[1..][i] == b[i + 1];
      WithoutSound(b[1..], k, hash, h);
      var rest := Without(b[1..], k);
      FindWithout(b[1..], k, b[0].0);
      FindIs(b[1..], b[0].0);
      FindIs(rest, b[0].0);
      if b[0].0 == k {
        assert Without(b, k) == rest;
      } else {
        assert Without(b, k) == [b[0]] + rest;
      }
    }
  }

  // ----- one table operation each -----

  /** A key that is not there is added, for any hash. */
  lemma InsertIs<K(!new), V>(t: Table<K, V>, hash: K -> nat, k: K, v: V)
    requires Sound(t, hash) && Get(t, hash, k) == None
    ensures Sound(Inserted(t, hash, k, v), hash)
    ensures forall x :: Get(Inserted(t, hash, k, v), hash, x) == if x == k then Some(v) else Get(t, hash, x)
  {
    var b := if hash(k) in t then t[hash(k)] else [];
    FindIs(b, k);
    forall x ensures Get(Inserted(t, hash, k, v), hash, x) == if x == k then Some(v) else Get(t, hash, x) {
      FindAppend(b, k, v, x);
    }
  }

  /** Assigning a key that is there writes the last pair of its bucket. */
  lemma OverwriteIs<K(!new), V>(t: Table<K, V>, hash: K -> nat, h: nat, v: V)
    requires Sound(t, hash) && h in t && t[h] != []
    ensures var last := t[h][|t[h]| - 1].0;
            && Sound(t[h := WithLast(t[h], v)], hash)
            && forall x :: Get(t[h := WithLast(t[h], v)], hash, x) == if x == last then Some(v) else Get(t, hash, x)
  {
    var b, last := t[h], t[h][|t[h]| - 1].0;
    var t' := t[h := WithLast(b, v)];
    forall x ensures Get(t', hash, x) == if x == last then Some(v) else Get(t, hash, x) {
      FindWithLast(b, v, x);
    }
  }

  /** The table after DelItem. */
  ghost function Deleted<K, V>(t: Table<K, V>, hash: K -> nat, k: K): Table<K, V> {
    if hash(k) in t then t[hash(k) := Without(t[hash(k)], k)] else t
  }

  lemma DeleteIs<K(!new), V>(t: Table<K, V>, hash: K -> nat, k: K)
    requires Sound(t, hash)
    ensures Sound(Deleted(t, hash, k), hash)
    ensures forall x :: Get(Deleted(t, hash, k), hash, x) == if x == k then None else Get(t, hash, x)
  {
    if hash(k) in t {
      var h := hash(k);
      WithoutSound(t[h], k, hash, h);
      forall x ensures Get(Deleted(t, hash, k), hash, x) == if x == k then None else Get(t, hash, x) {
        FindWithout(t[h], k, x);
      }
    }
  }

  /** The table after SetItem. */
  ghost function Assigned<K, V>(t: Table<K, V>, hash: K -> nat, k: K, v: V): Table<K, V> {
    if Get(t, hash, k).Some? then
      t[hash(k) := if t[hash(k)] == [] then [] else WithLast(t[hash(k)], v)]
    else Inserted(t, hash, k, v)
  }

  /** SetItem keeps the table sound; it writes k's own pair exactly when k is new or the
      last key of its bucket. */
  lemma AssignIs<K(!new), V>(t: Table<K, V>, hash: K -> nat, k: K, v: V)
    requires Sound(t, hash)
    ensures Sound(Assigned(t, hash, k, v), hash)
    ensures Get(t, hash, k) != Some(v) ==>
              ((forall x :: Get(Assigned(t, hash, k, v), hash, x) == if x == k then Some(v) else Get(t, hash, x))
               <==> Get(t, hash, k) == None || t[hash(k)][|t[hash(k)]| - 1].0 == k)
  {
    if Get(t, hash, k) == None {
      InsertIs(t, hash, k, v);
    } else {
      FindIs(t[hash(k)], k);
      OverwriteIs(t, hash, hash(k), v);
      var last := t[hash(k)][|t[hash(k)]| - 1].0;
      assert Get(Assigned(t, hash, k, v), hash, k) == if k == last then Some(v) else Get(t, hash, k);
    }
  }

  /** With an injective hash a bucket holds no other key than its own. */
  lemma OwnKey<K(!new), V>(t: Table<K, V>, hash: K -> nat, k: K)
    requires Sound(t, hash) && Injective(hash) && hash(k) in t
    ensures forall i | 0 <= i < |t[hash(k)]| :: t[hash(k)][i].0 == k
  {
    var b := t[hash(k)];
    assert InPlace(b, hash, hash(k));
    assert forall i | 0 <= i < |b| :: hash(b[i].0) == hash(k);
  }

  /** The answer about the first pair whose key does not answer no. */
  ghost function Matches<K, V>(b: seq<(K, V)>, equal: (K, K) -> Option<bool>, k: K): Option<bool> {
    if b == [] then Some(false)
    else if equal(b[0].0, k) == Some(false) then Matches(b[1..], equal, k)
    else equal(b[0].0, k)
  }

  lemma {:induction false} MatchesIs<K, V>(b: seq<(K, V)>, equal: (K, K) -> Option<bool>, k: K)
    requires forall i | 0 <= i < |b| :: equal(b[i].0, k) == Some(b[i].0 == k)
    ensures Matches(b, equal, k) == Some(Find(b, k).Some?)
  {
    if b != [] {
      assert forall i | 0 <= i < |b[1..]| :: b[1..][i] == b[i + 1];
      MatchesIs(b[1..], equal, k);
    }
  }

  // ----- the object -----

  class MapObject<K(==, !new), V> {
    const hash: K -> nat
    var value: Table<K, V>

    constructor Empty(hash: K -> nat)
      ensures this.hash == hash && value == map[]
    {
      this.hash := hash;
      value := map[];
    }

    /** From the pairs of a literal: of two keys with one hash the first stays. */
    constructor (hash: K -> nat, pairs: seq<(K, V)>)
      ensures this.hash == hash && Sound(value, hash)
      ensures forall x :: Get(value, hash, x) == FirstWith(pairs, hash, x)
    {
      this.hash := hash;
      value := map[];
      new;
      var i := 0;
      while i < |pairs|
        invariant 0 <= i <= |pairs| && this.hash == hash && Sound(value, hash)
        invariant forall h :: h in value <==> exists j | 0 <= j < i :: hash(pairs[j].0) == h
        invariant forall h | h in value ::
                    exists j | 0 <= j < i :: IsFirst(pairs, hash, j, h) && value[h] == [pairs[j]]
      {
        var h := hash(pairs[i].0);
        if h !in value {
          assert IsFirst(pairs, hash, i, h);
          value := value[h := [pairs[i]]];
        }
        i := i + 1;
      }
      forall x ensures Get(value, hash, x) == FirstWith(pairs, hash, x) {
        var h := hash(x);
        if h in value {
          var j :| 0 <= j < |pairs| && IsFirst(pairs, hash, j, h) && value[h] == [pairs[j]];
          FirstWithIs(pairs, hash, x, j);
          FindIs(value[h], x);
        } else {
          NoneWith(pairs, hash, x);
        }
      }
    }

    method Exists(k: K) returns (found: bool)
      ensures found <==> Get(value, hash, k).Some?
    {
      if hash(k) in value {
        var b := value[hash(k)];
        FindIs(b, k);
        var i := 0;
        while i < |b|
          invariant 0 <= i <= |b| && forall j | 0 <= j < i :: b[j].0 != k
        {
          if b[i].0 == k {
            return true;
          }
          i := i + 1;
        }
      }
      found := false;
    }

    /** The `in` operator asks the keys' own equality, which must answer with a bool. */
    method In(k: K, equal: (K, K) -> Option<bool>) returns (found: Option<bool>)
      ensures found == if hash(k) in value then Matches(value[hash(k)], equal, k) else Some(false)
    {
      if hash(k) in value {
        var b, i := value[hash(k)], 0;
        assert b[0..] == b;
        while i < |b|
          invariant 0 <= i <= |b| && Matches(b[i..], equal, k) == Matches(b, equal, k)
        {
          var v := equal(b[i].0, k);
          assert b[i..][1..] == b[i + 1..];
          if v != Some(false) {
            return v;
          }
          i := i + 1;
        }
      }
      found := Some(false);
    }

    /** A new object with the same pairs. */
    method Copy() returns (r: MapObject<K, V>)
      ensures fresh(r) && r.hash == hash && r.value == value
    {
      r := new MapObject.Empty(hash);
      r.value := value;
    }

    /** The loop over the bucket stops at its first pair in every case. */
    method Element(k: K) returns (r: Option<V>)
      ensures r.Some? <==> hash(k) in value && value[hash(k)] != [] && value[hash(k)][0].0 == k
      ensures r.Some? ==> r == Get(value, hash, k)
      ensures Sound(value, hash) && Injective(hash) ==> r == Get(value, hash, k)
    {
      if hash(k) !in value {
        return None;
      }
      var b := value[hash(k)];
      if Sound(value, hash) && Injective(hash) {
        OwnKey(value, hash, k);
      }
      if |b| > 0 {
        if b[0].0 == k {
          return Some(b[0].1);
        } else {
          return None;
        }
      }
      r := None;
    }

    /** The pair added stands for the slot that the source returns, which every caller
        fills at once. */
    method Insert(k: K, v: V)
      modifies this
      ensures value == Inserted(old(value), hash, k, v)
    {
      if hash(k) !in value {
        value := value[hash(k) := [] + [(k, v)]];
      } else {
        value := value[hash(k) := value[hash(k)] + [(k, v)]];
      }
    }

    method SetItem(k: K, v: V)
      modifies this
      ensures value == Assigned(old(value), hash, k, v)
    {
      var found := Exists(k);
      if found {
        var b := value[hash(k)];
        FindIs(b, k);
        value := value[hash(k) := b[|b| - 1 := (b[|b| - 1].0, v)]];
      } else {
        Insert(k, v);
      }
    }

    /** The bucket stays, even when it is empty. */
    method DelItem(k: K)
      modifies this
      ensures value == Deleted(old(value), hash, k)
    {
      if hash(k) in value {
        var b := value[hash(k)];
        var kept, i := [], 0;
        WithoutStep(b, k, 0, kept);
        while i < |b|
          invariant 0 <= i <= |b| && kept + Without(b[i..], k) == Without(b, k)
          invariant value == old(value)
        {
          WithoutStep(b, k, i, kept);
          if b[i].0 != k {
            kept := kept + [b[i]];
          }
          i := i + 1;
        }
        WithoutStep(b, k, i, kept);
        assert kept == Without(b, k);
        value := value[hash(k) := kept];
      }
    }

    /** The number of pairs; the buckets come in any order. */
    method Len() returns (n: nat)
      requires Sound(value, hash)
      ensures n == |Keys(value, value.Keys)|
    {
      n := 0;
      var todo := value.Keys;
      assert Keys(value, value.Keys - todo) == {};
      while todo != {}
        invariant todo <= value.Keys && n == |Keys(value, value.Keys - todo)|
        decreases |todo|
      {
        var h :| h in todo;
        BucketKeys(value, hash, value.Keys - todo, h);
        n := n + |value[h]|;
        assert value.Keys - (todo - {h}) == value.Keys - todo + {h};
        todo := todo - {h};
      }
      assert value.Keys - todo == value.Keys;
    }

    /** A new object with the pairs of this one, and those of the other whose keys this one
        does not have. */
    method Add(other: MapObject<K, V>) returns (r: MapObject<K, V>)
      requires hash == other.hash && Sound(value, hash) && Sound(other.value, hash)
      ensures fresh(r) && r.hash == hash && Sound(r.value, hash)
      ensures forall x :: Get(r.value, hash, x) ==
                if Get(value, hash, x).Some? then Get(value, hash, x) else Get(other.value, hash, x)
    {
      r := new MapObject.Empty(hash);
      r.value := value;
      var todo := other.value.Keys;
      while todo != {}
        invariant todo <= other.value.Keys && Sound(r.value, hash) && r.hash == hash
        invariant forall x :: Get(r.value, hash, x) ==
                    if Get(value, hash, x).Some? || hash(x) in todo then Get(value, hash, x)
                    else Get(other.value, hash, x)
        modifies r
        decreases |todo|
      {
        var h :| h in todo;
        AddBucket(other, h, r);
        todo := todo - {h};
      }
    }

    method AddBucket(other: MapObject<K, V>, h: nat, r: MapObject<K, V>)
      requires r != this && r != other && hash == other.hash == r.hash && h in other.value
      requires Sound(value, hash) && Sound(other.value, hash) && Sound(r.value, hash)
      requires forall x | hash(x) == h :: Get(r.value, hash, x) == Get(value, hash, x)
      modifies r
      ensures Sound(r.value, hash)
      ensures forall x :: Get(r.value, hash, x) ==
                if hash(x) == h && Get(value, hash, x) == None then Get(other.value, hash, x)
                else old(Get(r.value, hash, x))
    {
      var b := other.value[h];
      var i := 0;
      while i < |b|
        invariant 0 <= i <= |b| && Sound(r.value, hash)
        invariant forall x :: Get(r.value, hash, x) ==
                    if hash(x) == h && Get(value, hash, x) == None then Find(b[..i], x)
                    else old(Get(r.value, hash, x))
      {
        var found := Exists(b[i].0);
        assert b[..i + 1] == b[..i] + [b[i]];
        forall x ensures Find(b[..i + 1], x) ==
                         if Find(b[..i], x).Some? then Find(b[..i], x) else if x == b[i].0 then Some(b[i].1) else None
        {
          FindAppend(b[..i], b[i].0, b[i].1, x);
        }
        FindIs(b[..i], b[i].0);
        if !found {
          InsertIs(r.value, hash, b[i].0, b[i].1);
          r.Insert(b[i].0, b[i].1);
        }
        i := i + 1;
      }
      assert b[..i] == b;
    }

    /** Keeps the pairs that the function accepts, through a new object. */
    method Filter(accepts: (K, V) -> bool)
      requires Sound(value, hash)
      modifies this
      ensures Sound(value, hash)
      ensures forall x :: Get(value, hash, x) == Accepted(old(Get(value, hash, x)), accepts, x)
    {
      var r := new MapObject.Empty(hash);
      var todo := value.Keys;
      while todo != {}
        invariant todo <= value.Keys && value == old(value) && r.hash == hash && Sound(r.value, hash)
        invariant forall x :: Get(r.value, hash, x) ==
                    if hash(x) in todo then None else Accepted(Get(value, hash, x), accepts, x)
        modifies r
        decreases |todo|
      {
        var h :| h in todo;
        FilterBucket(accepts, h, r);
        todo := todo - {h};
      }
      value := r.value;
    }

    method FilterBucket(accepts: (K, V) -> bool, h: nat, r: MapObject<K, V>)
      requires r != this && r.hash == hash && h in value && Sound(value, hash) && Sound(r.value, hash)
      requires forall x | hash(x) == h :: Get(r.value, hash, x) == None
      modifies r
      ensures Sound(r.value, hash)
      ensures forall x :: Get(r.value, hash, x) ==
                if hash(x) == h then Accepted(Get(value, hash, x), accepts, x) else old(Get(r.value, hash, x))
    {
      var b := value[h];
      var i := 0;
      while i < |b|
        invariant 0 <= i <= |b| && Sound(r.value, hash)
        invariant forall x :: Get(r.value, hash, x) ==
                    if hash(x) == h then Accepted(Find(b[..i], x), accepts, x) else old(Get(r.value, hash, x))
      {
        assert b[..i + 1] == b[..i] + [b[i]];
        forall x ensures Find(b[..i + 1], x) ==
                         if Find(b[..i], x).Some? then Find(b[..i], x) else if x == b[i].0 then Some(b[i].1) else None
        {
          FindAppend(b[..i], b[i].0, b[i].1, x);
        }
        FindIs(b[..i], b[i].0);
        if accepts(b[i].0, b[i].1) {
          AssignIs(r.value, hash, b[i].0, b[i].1);
          r.SetItem(b[i].0, b[i].1);
        }
        i := i + 1;
      }
      assert b[..i] == b;
    }
  }

  ghost function Accepted<K, V>(v: Option<V>, accepts: (K, V) -> bool, x: K): Option<V> {
    if v.Some? && accepts(x, v.value) then v else None
  }

  /** The keys in the buckets of some hashes. */
  ghost function Keys<K, V>(t: Table<K, V>, hs: set<nat>): set<K>
    requires hs <= t.Keys
  {
    set h, i | h in hs && 0 <= i < |t[h]| :: t[h][i].0
  }

  lemma {:induction false} ApartSize<K, V>(b: seq<(K, V)>)
    requires Apart(b)
    ensures |set i | 0 <= i < |b| :: b[i].0| == |b|
  {
    var all := set i | 0 <= i < |b| :: b[i].0;
    if b == [] {
      assert all == {};
    } else {
      var n := |b| - 1;
      ApartSize(b[..n]);
      var most := set i | 0 <= i < n :: b[..n][i].0;
      assert all == most + {b[n].0};
    }
  }

  lemma BucketKeys<K, V>(t: Table<K, V>, hash: K -> nat, hs: set<nat>, h: nat)
    requires Sound(t, hash) && hs <= t.Keys && h in t && h !in hs
    ensures |Keys(t, hs + {h})| == |Keys(t, hs)| + |t[h]|
  {
    var own := set i | 0 <= i < |t[h]| :: t[h][i].0;
    ApartSize(t[h]);
    assert Keys(t, hs + {h}) == Keys(t, hs) + own;
    forall x | x in own ensures x !in Keys(t, hs) {
      assert hash(x) == h;
    }
    assert own !! Keys(t, hs);
  }

  /** The value of x when the pairs are inserted only under new hashes. */
  ghost function FirstWith<K, V>(pairs: seq<(K, V)>, hash: K -> nat, x: K): Option<V> {
    if pairs == [] then None
    else if hash(pairs[0].0) == hash(x) then if pairs[0].0 == x then Some(pairs[0].1) else None
    else FirstWith(pairs[1..], hash, x)
  }

  ghost predicate IsFirst<K, V>(pairs: seq<(K, V)>, hash: K -> nat, j: nat, h: nat) {
    j < |pairs| && hash(pairs[j].0) == h && forall i | 0 <= i < j :: hash(pairs[i].0) != h
  }

  lemma {:induction false} FirstWithIs<K, V>(pairs: seq<(K, V)>, hash: K -> nat, x: K, j: nat)
    requires IsFirst(pairs, hash, j, hash(x))
    ensures FirstWith(pairs, hash, x) == if pairs[j].0 == x then Some(pairs[j].1) else None
  {
    if j > 0 {
      assert forall i | 0 <= i < |pairs[1..]| :: pairs[1..][i] == pairs[i + 1];
      FirstWithIs(pairs[1..], hash, x, j - 1);
    }
  }

  lemma {:induction false} NoneWith<K, V>(pairs: seq<(K, V)>, hash: K -> nat, x: K)
    requires forall i | 0 <= i < |pairs| :: hash(pairs[i].0) != hash(x)
    ensures FirstWith(pairs, hash, x) == None
  {
    if pairs != [] {
      assert forall i | 0 <= i < |pairs[1..]| :: pairs[1..][i] == pairs[i + 1];
      NoneWith(pairs[1..], hash, x);
    }
  }

  // ----- the object against a finite map, when keys have distinct hashes -----

  /** The map of a literal: the first of two pairs with one key stays. */
  function Literal<K, V>(pairs: seq<(K, V)>): map<K, V> {
    if pairs == [] then map[] else Literal(pairs[1..])[pairs[0].0 := pairs[0].1]
  }

  lemma {:induction false} LiteralIs<K(!new), V>(pairs: seq<(K, V)>, hash: K -> nat, x: K)
    requires Injective(hash)
    ensures FirstWith(pairs, hash, x) == if x in Literal(pairs) then Some(Literal(pairs)[x]) else None
  {
    if pairs != [] {
      LiteralIs(pairs[1..], hash, x);
    }
  }

  lemma AssignRefines<K(!new), V>(t: Table<K, V>, hash: K -> nat, m: map<K, V>, k: K, v: V)
    requires Injective(hash) && Is(t, hash, m)
    ensures Is(Assigned(t, hash, k, v), hash, m[k := v])
  {
    if Get(t, hash, k) == None {
      InsertIs(t, hash, k, v);
    } else {
      FindIs(t[hash(k)], k);
      OwnKey(t, hash, k);
      OverwriteIs(t, hash, hash(k), v);
    }
  }

  lemma DeleteRefines<K(!new), V>(t: Table<K, V>, hash: K -> nat, m: map<K, V>, k: K)
    requires Is(t, hash, m)
    ensures Is(Deleted(t, hash, k), hash, m - {k})
  {
    DeleteIs(t, hash, k);
  }

  /** The number of pairs is the size of the map, for any hash. */
  lemma LenRefines<K(!new), V>(t: Table<K, V>, hash: K -> nat, m: map<K, V>)
    requires Is(t, hash, m)
    ensures |Keys(t, t.Keys)| == |m|
  {
    forall k ensures k in Keys(t, t.Keys) <==> k in m.Keys {
      if hash(k) in t { FindIs(t[hash(k)], k); }
      if k in Keys(t, t.Keys) {
        var h, i :| h in t && 0 <= i < |t[h]| && t[h][i].0 == k;
        assert InPlace(t[h], hash, h);
        FindIs(t[h], k);
      }
    }
    assert Keys(t, t.Keys) == m.Keys;
    assert |m| == |m.Keys|;
  }

  datatype Op<!K, !V> =
    | SetItem(k: K, v: V)
    | DelItem(k: K)
    | GetItem(k: K)
    | Exists(k: K)
    | In(k: K)
    | Len
    | Add(pairs: seq<(K, V)>)
    | Filter(accepts: (K, V) -> bool)

  datatype Answer<V> = Done | Item(item: Option<V>) | Found(found: bool) | Size(n: nat)

  /** What an operation does to a finite map. */
  function After<K, V>(m: map<K, V>, op: Op<K, V>): map<K, V> {
    match op
    case SetItem(k, v) => m[k := v]
    case DelItem(k) => m - {k}
    case Add(pairs) => Literal(pairs) + m
    case Filter(accepts) => map k | k in m && accepts(k, m[k]) :: m[k]
    case _ => m
  }

  function Answered<K, V>(m: map<K, V>, op: Op<K, V>): Answer<V> {
    match op
    case GetItem(k) => Item(if k in m then Some(m[k]) else None)
    case Exists(k) => Found(k in m)
    case In(k) => Found(k in m)
    case Len => Size(|m|)
    case _ => Done
  }

  function Answers<K, V>(m: map<K, V>, ops: seq<Op<K, V>>): seq<Answer<V>>
    decreases |ops|
  {
    if ops == [] then [] else [Answered(m, ops[0])] + Answers(After(m, ops[0]), ops[1..])
  }

  lemma LiteralTable<K(!new), V>(t: Table<K, V>, hash: K -> nat, pairs: seq<(K, V)>)
    requires Injective(hash) && Sound(t, hash) && forall x :: Get(t, hash, x) == FirstWith(pairs, hash, x)
    ensures Is(t, hash, Literal(pairs))
  {
    forall k { LiteralIs(pairs, hash, k); }
  }

  /** What an operation does to a sound table and answers, for any hash. */
  ghost predicate Step<K(!new), V>(t: Table<K, V>, hash: K -> nat, op: Op<K, V>, t': Table<K, V>, a: Answer<V>) {
    && Sound(t', hash)
    && match op
       case SetItem(k, v) => t' == Assigned(t, hash, k, v) && a == Done
       case DelItem(k) => t' == Deleted(t, hash, k) && a == Done
       case GetItem(k) => t' == t && a == Item(FirstOf(t, hash, k))
       case Exists(k) => t' == t && a == Found(Get(t, hash, k).Some?)
       case In(k) => t' == t && a == Found(Get(t, hash, k).Some?)
       case Len => t' == t && a == Size(|Keys(t, t.Keys)|)
       case Add(pairs) =>
         a == Done && forall x :: Get(t', hash, x) ==
                        if Get(t, hash, x).Some? then Get(t, hash, x) else FirstWith(pairs, hash, x)
       case Filter(accepts) => a == Done && forall x :: Get(t', hash, x) == Accepted(Get(t, hash, x), accepts, x)
  }

  /** The value of k when its pair is the first of its bucket. */
  ghost function FirstOf<K, V>(t: Table<K, V>, hash: K -> nat, k: K): Option<V> {
    if hash(k) in t && t[hash(k)] != [] && t[hash(k)][0].0 == k then Some(t[hash(k)][0].1) else None
  }

  lemma FirstIsGet<K, V>(t: Table<K, V>, hash: K -> nat, k: K)
    ensures FirstOf(t, hash, k).Some? ==> FirstOf(t, hash, k) == Get(t, hash, k)
  {
  }

  lemma SetKeeps<K(!new), V>(t: Table<K, V>, hash: K -> nat, k: K, v: V)
    requires Sound(t, hash)
    ensures Sound(Assigned(t, hash, k, v), hash)
  {
    AssignIs(t, hash, k, v);
  }

  /** Membership is what the bucket of k has. */
  lemma InBucket<K(!new), V>(t: Table<K, V>, hash: K -> nat, k: K, equal: (K, K) -> Option<bool>)
    requires forall a :: equal(a, k) == Some(a == k)
    ensures (if hash(k) in t then Matches(t[hash(k)], equal, k) else Some(false)) == Some(Get(t, hash, k).Some?)
  {
    if hash(k) in t {
      MatchesIs(t[hash(k)], equal, k);
    }
  }

  /** One operation on the object. */
  method Apply<K(==, !new), V>(x: MapObject<K, V>, op: Op<K, V>) returns (y: MapObject<K, V>, a: Answer<V>)
    requires Sound(x.value, x.hash)
    modifies x
    ensures (y == x || fresh(y)) && y.hash == x.hash
    ensures Step(old(x.value), x.hash, op, y.value, a)
  {
    hide Get, Sound, FirstWith, Assigned, Deleted, Keys, Accepted, Matches;
    y, a := x, Done;
    match op {
      case SetItem(k, v) =>
        SetKeeps(x.value, x.hash, k, v);
        x.SetItem(k, v);
      case DelItem(k) =>
        DeleteIs(x.value, x.hash, k);
        x.DelItem(k);
      case GetItem(k) =>
        FirstIsGet(x.value, x.hash, k);
        var v := x.Element(k);
        a := Item(v);
      case Exists(k) =>
        var found := x.Exists(k);
        a := Found(found);
      case In(k) =>
        var equal := (a: K, b: K) => Some(a == b);
        InBucket(x.value, x.hash, k, equal);
        var found := x.In(k, equal);
        a := Found(found.value);
      case Len =>
        var n := x.Len();
        a := Size(n);
      case Add(pairs) =>
        var other := new MapObject(x.hash, pairs);
        y := x.Add(other);
      case Filter(accepts) =>
        x.Filter(accepts);
    }
  }

  // ----- operations on finite maps, when keys have distinct hashes -----

  lemma StepRefines<K(!new), V>(t: Table<K, V>, hash: K -> nat, op: Op<K, V>, t': Table<K, V>, a: Answer<V>,
          m: map<K, V>)
    requires Injective(hash) && Is(t, hash, m) && Step(t, hash, op, t', a)
    ensures Is(t', hash, After(m, op)) && a == Answered(m, op)
  {
    match op
    case SetItem(k, v) => AssignRefines(t, hash, m, k, v);
    case DelItem(k) => DeleteRefines(t, hash, m, k);
    case GetItem(k) => if hash(k) in t { OwnKey(t, hash, k); }
    case Len => LenRefines(t, hash, m);
    case Add(pairs) => AddRefines(t, t', hash, m, pairs);
    case Filter(accepts) =>
    case _ =>
  }

  lemma IsSound<K(!new), V>(t: Table<K, V>, hash: K -> nat, m: map<K, V>)
    requires Is(t, hash, m)
    ensures Sound(t, hash)
  {
  }

  lemma AddRefines<K(!new), V>(t: Table<K, V>, t': Table<K, V>, hash: K -> nat, m: map<K, V>, pairs: seq<(K, V)>)
    requires Injective(hash) && Is(t, hash, m) && Sound(t', hash)
    requires forall x :: Get(t', hash, x) ==
               if Get(t, hash, x).Some? then Get(t, hash, x) else FirstWith(pairs, hash, x)
    ensures Is(t', hash, Literal(pairs) + m)
  {
    forall x { LiteralIs(pairs, hash, x); }
  }

  /** Any sequence of operations answers as on a plain finite map, from any literal. */
  method Run<K(==, !new), V>(hash: K -> nat, pairs: seq<(K, V)>, ops: seq<Op<K, V>>)
    returns (answers: seq<Answer<V>>)
    requires Injective(hash)
    ensures answers == Answers(Literal(pairs), ops)
  {
    var x := new MapObject(hash, pairs);
    LiteralTable(x.value, hash, pairs);
    ghost var m := Literal(pairs);
    answers := [];
    var i := 0;
    while i < |ops|
      invariant 0 <= i <= |ops| && fresh(x) && x.hash == hash && Is(x.value, hash, m)
      invariant answers + Answers(m, ops[i..]) == Answers(Literal(pairs), ops)
    {
      var a;
      assert ops[i..][1..] == ops[i + 1..];
      ghost var t := x.value;
      x, a := Apply(x, ops[i]);
      StepRefines(t, hash, ops[i], x.value, a, m);
      answers := answers + [a];
      m := After(m, ops[i]);
      i := i + 1;
    }
  }

  /** What two independent maps answer; the flag of an operation says which one it goes to. */
  function AnswersBoth<K, V>(m1: map<K, V>, m2: map<K, V>, ops: seq<(bool, Op<K, V>)>): seq<Answer<V>>
    decreases |ops|
  {
    if ops == [] then []
    else
      var (second, op) := ops[0];
      if second then [Answered(m2, op)] + AnswersBoth(m1, After(m2, op), ops[1..])
      else [Answered(m1, op)] + AnswersBoth(After(m1, op), m2, ops[1..])
  }

  /** An object and its copy answer like two independent maps that start out equal: what is
      done to one of them never shows in the other. */
  method RunCopied<K(==, !new), V>(hash: K -> nat, pairs: seq<(K, V)>, ops: seq<(bool, Op<K, V>)>)
    returns (answers: seq<Answer<V>>)
    requires Injective(hash)
    ensures answers == AnswersBoth(Literal(pairs), Literal(pairs), ops)
  {
    hide Get, Sound, Is, Injective, FirstWith, Literal, Answered, After;
    var x := new MapObject(hash, pairs);
    LiteralTable(x.value, hash, pairs);
    var y := x.Copy();
    ghost var m1, m2 := Literal(pairs), Literal(pairs);
    answers := [];
    var i := 0;
    while i < |ops|
      invariant 0 <= i <= |ops| && fresh(x) && fresh(y) && x != y && x.hash == hash && y.hash == hash
      invariant Is(x.value, hash, m1) && Is(y.value, hash, m2)
      invariant answers + AnswersBoth(m1, m2, ops[i..]) == AnswersBoth(Literal(pairs), Literal(pairs), ops)
    {
      var a;
      assert ops[i..][1..] == ops[i + 1..];
      if ops[i].0 {
        IsSound(y.value, hash, m2);
        ghost var t := y.value;
        y, a := Apply(y, ops[i].1);
        StepRefines(t, hash, ops[i].1, y.value, a, m2);
        m2 := After(m2, ops[i].1);
      } else {
        IsSound(x.value, hash, m1);
        ghost var t := x.value;
        x, a := Apply(x, ops[i].1);
        StepRefines(t, hash, ops[i].1, x.value, a, m1);
        m1 := After(m1, ops[i].1);
      }
      answers := answers + [a];
      i := i + 1;
    }
  }

  // ----- operations for any hash -----

  /** The keys of a sound table. */
  ghost predicate HasKeys<K(!new), V>(t: Table<K, V>, hash: K -> nat, ks: set<K>) {
    Sound(t, hash) && forall k :: Get(t, hash, k).Some? <==> k in ks
  }

  /** The keys of a literal: of those with one hash the first. */
  ghost function FirstKeys<K, V>(pairs: seq<(K, V)>, hash: K -> nat): set<K> {
    set i | 0 <= i < |pairs| && FirstWith(pairs, hash, pairs[i].0).Some? :: pairs[i].0
  }

  lemma {:induction false} FirstIsThere<K, V>(pairs: seq<(K, V)>, hash: K -> nat, x: K)
    requires FirstWith(pairs, hash, x).Some?
    ensures exists i :: 0 <= i < |pairs| && pairs[i].0 == x
  {
    if hash(pairs[0].0) != hash(x) {
      FirstIsThere(pairs[1..], hash, x);
      var i :| 0 <= i < |pairs[1..]| && pairs[1..][i].0 == x;
      assert pairs[i + 1].0 == x;
    } else {
      assert pairs[0].0 == x;
    }
  }

  /** What an operation does to the keys. */
  ghost predicate KeysStep<K, V>(ks: set<K>, hash: K -> nat, op: Op<K, V>, ks': set<K>) {
    match op
    case SetItem(k, _) => ks' == ks + {k}
    case DelItem(k) => ks' == ks - {k}
    case Add(pairs) => ks' == ks + FirstKeys(pairs, hash)
    case Filter(_) => ks' <= ks
    case _ => ks' == ks
  }

  ghost predicate KeyAnswer<K, V>(ks: set<K>, op: Op<K, V>, a: Answer<V>) {
    match op
    case GetItem(k) => a.Item? && (a.item.Some? ==> k in ks)
    case Exists(k) => a == Found(k in ks)
    case In(k) => a == Found(k in ks)
    case Len => a == Size(|ks|)
    case _ => a == Done
  }

  /** A sound table's keys, as a finite set. */
  lemma KeysExist<K(!new), V>(t: Table<K, V>, hash: K -> nat)
    requires Sound(t, hash)
    ensures HasKeys(t, hash, Keys(t, t.Keys))
  {
    forall k ensures Get(t, hash, k).Some? <==> k in Keys(t, t.Keys) {
      if hash(k) in t { FindIs(t[hash(k)], k); }
      if k in Keys(t, t.Keys) {
        var h, i :| h in t && 0 <= i < |t[h]| && t[h][i].0 == k;
        assert InPlace(t[h], hash, h);
      }
    }
  }

  lemma StepKeys<K(!new), V>(t: Table<K, V>, hash: K -> nat, op: Op<K, V>, t': Table<K, V>, a: Answer<V>)
    requires Sound(t, hash) && Step(t, hash, op, t', a)
    ensures HasKeys(t, hash, Keys(t, t.Keys)) && HasKeys(t', hash, Keys(t', t'.Keys))
    ensures KeysStep(Keys(t, t.Keys), hash, op, Keys(t', t'.Keys)) && KeyAnswer(Keys(t, t.Keys), op, a)
  {
    KeysExist(t, hash);
    KeysExist(t', hash);
    var ks, ks' := Keys(t, t.Keys), Keys(t', t'.Keys);
    hide Keys;
    match op
    case SetItem(k, v) => SetKeys(t, hash, k, v, ks, ks');
    case DelItem(k) =>
      DeleteIs(t, hash, k);
      assert forall x :: x in ks' <==> Get(t', hash, x).Some?;
    case GetItem(k) =>
    case Add(pairs) => AddKeys(t, hash, pairs, t', ks, ks');
    case Filter(_) => assert forall x :: x in ks' <==> Get(t', hash, x).Some?;
    case _ =>
  }

  lemma SetKeys<K(!new), V>(t: Table<K, V>, hash: K -> nat, k: K, v: V, ks: set<K>, ks': set<K>)
    requires HasKeys(t, hash, ks) && HasKeys(Assigned(t, hash, k, v), hash, ks')
    ensures ks' == ks + {k}
  {
    var t' := Assigned(t, hash, k, v);
    if Get(t, hash, k) == None {
      InsertIs(t, hash, k, v);
    } else {
      FindIs(t[hash(k)], k);
      OverwriteIs(t, hash, hash(k), v);
      var last := t[hash(k)][|t[hash(k)]| - 1].0;
      FindIs(t[hash(k)], last);
      assert InPlace(t[hash(k)], hash, hash(k));
    }
    assert forall x :: Get(t', hash, x).Some? <==> Get(t, hash, x).Some? || x == k;
  }

  lemma AddKeys<K(!new), V>(t: Table<K, V>, hash: K -> nat, pairs: seq<(K, V)>, t': Table<K, V>, ks: set<K>,
          ks': set<K>)
    requires HasKeys(t, hash, ks) && HasKeys(t', hash, ks')
    requires forall x :: Get(t', hash, x) ==
               if Get(t, hash, x).Some? then Get(t, hash, x) else FirstWith(pairs, hash, x)
    ensures ks' == ks + FirstKeys(pairs, hash)
  {
    forall x ensures x in ks' <==> x in ks || x in FirstKeys(pairs, hash) {
      assert x in ks' <==> Get(t', hash, x).Some?;
      if FirstWith(pairs, hash, x).Some? { FirstIsThere(pairs, hash, x); }
    }
  }

  /** For any hash, however keys collide, any sequence of operations from any literal keeps
      the table sound and adds and removes keys as on a finite set; membership and length
      are answered as on that set, and reading finds no key outside it. */
  method RunAny<K(==, !new), V>(hash: K -> nat, pairs: seq<(K, V)>, ops: seq<Op<K, V>>)
    returns (x: MapObject<K, V>, answers: seq<Answer<V>>, ghost keys: seq<set<K>>)
    ensures |answers| == |ops| && |keys| == |ops| + 1 && keys[0] == FirstKeys(pairs, hash)
    ensures forall i | 0 <= i < |ops| ::
              KeysStep(keys[i], hash, ops[i], keys[i + 1]) && KeyAnswer(keys[i], ops[i], answers[i])
    ensures fresh(x) && HasKeys(x.value, hash, keys[|ops|])
  {
    x := new MapObject(hash, pairs);
    KeysExist(x.value, hash);
    LiteralKeys(x.value, hash, pairs);
    answers, keys := [], [Keys(x.value, x.value.Keys)];
    var i := 0;
    while i < |ops|
      invariant 0 <= i <= |ops| && fresh(x) && x.hash == hash && |answers| == i && |keys| == i + 1
      invariant keys[0] == FirstKeys(pairs, hash) && keys[i] == Keys(x.value, x.value.Keys)
      invariant HasKeys(x.value, hash, keys[i])
      invariant forall j | 0 <= j < i ::
                  KeysStep(keys[j], hash, ops[j], keys[j + 1]) && KeyAnswer(keys[j], ops[j], answers[j])
    {
      hide Get, Sound, Keys, FirstKeys, KeysStep, KeyAnswer;
      ghost var t := x.value;
      var a;
      x, a := Apply(x, ops[i]);
      StepKeys(t, hash, ops[i], x.value, a);
      answers := answers + [a];
      keys := keys + [Keys(x.value, x.value.Keys)];
      i := i + 1;
    }
  }

  lemma LiteralKeys<K(!new), V>(t: Table<K, V>, hash: K -> nat, pairs: seq<(K, V)>)
    requires Sound(t, hash) && forall x :: Get(t, hash, x) == FirstWith(pairs, hash, x)
    ensures Keys(t, t.Keys) == FirstKeys(pairs, hash)
  {
    KeysExist(t, hash);
    forall x ensures x in Keys(t, t.Keys) <==> x in FirstKeys(pairs, hash) {
      assert Get(t, hash, x).Some? <==> x in Keys(t, t.Keys);
      if FirstWith(pairs, hash, x).Some? { FirstIsThere(pairs, hash, x); }
    }
  }

  // ----- iteration -----

  /** The pairs of the buckets in the order of iteration. */
  ghost function Listed<K, V>(t: Table<K, V>, order: seq<nat>): seq<(K, V)>
    requires forall h | h in order :: h in t
  {
    if order == [] then [] else t[order[0]] + Listed(t, order[1..])
  }

  class MapIterObject<K(==, !new), V> {
    const of: MapObject<K, V>
    const order: seq<nat>
    var pos: nat
    var posVec: nat

    /** order is the order in which the table keeps its buckets. */
    constructor (of: MapObject<K, V>, order: seq<nat>)
      requires Complete(of.value, order)
      ensures this.of == of && this.order == order && Valid() && Left() == Listed(of.value, order)
    {
      this.of := of;
      this.order := order;
      pos, posVec := 0, 0;
      new;
      assert order[0..] == order;
      assert order != [] ==> of.value[order[0]][0..] == of.value[order[0]];
    }

    /** No bucket is empty. */
    ghost predicate Valid()
      reads this, of
    {
      && Complete(of.value, order)
      && pos <= |order| && (if pos < |order| then posVec < |of.value[order[pos]]| else posVec == 0)
    }

    ghost function Left(): seq<(K, V)>
      reads this, of
      requires Valid()
    {
      if pos == |order| then [] else of.value[order[pos]][posVec..] + Listed(of.value, order[pos + 1..])
    }

    predicate HasNext()
      reads this, of
      requires Valid()
      ensures HasNext() <==> Left() != []
    {
      pos != |order|
    }

    /** Null at the end. */
    method Next() returns (r: Option<(K, V)>)
      requires Valid()
      modifies this
      ensures Valid()
      ensures if old(Left()) == [] then r == None && Left() == []
              else r == Some(old(Left())[0]) && Left() == old(Left())[1..]
    {
      if pos == |order| {
        return None;
      }
      var b := of.value[order[pos]];
      r := Some(b[posVec]);
      ghost var more := Listed(of.value, order[pos + 1..]);
      assert (b[posVec..] + more)[1..] == b[posVec + 1..] + more;
      posVec := posVec + 1;
      if posVec >= |b| {
        pos := pos + 1;
        posVec := 0;
        if pos < |order| {
          assert order[pos..][0] == order[pos] && order[pos..][1..] == order[pos + 1..];
          assert of.value[order[pos]][0..] == of.value[order[pos]];
        }
      }
    }
  }

  /** order lists every bucket once, and none is empty. */
  ghost predicate Complete<K, V>(t: Table<K, V>, order: seq<nat>) {
    && (forall h :: h in order <==> h in t)
    && (forall i, j | 0 <= i < j < |order| :: order[i] != order[j])
    && forall h | h in t :: t[h] != []
  }

  /** The loop over an iterator. */
  method Visit<K(==, !new), V>(it: MapIterObject<K, V>) returns (visited: seq<(K, V)>)
    requires it.Valid()
    modifies it
    ensures visited == old(it.Left())
  {
    hide *;
    visited := [];
    while it.HasNext()
      invariant it.Valid() && visited + it.Left() == old(it.Left())
      decreases |it.Left()|
    {
      var r := it.Next();
      visited := visited + [r.value];
    }
  }

  function Elems(order: seq<nat>): set<nat> { set h | h in order }

  /** The list of an iterator has every pair of the table exactly once: its keys are
      distinct and there are Len() of them. */
  lemma {:induction false} ListedOnce<K, V>(t: Table<K, V>, hash: K -> nat, order: seq<nat>)
    requires Sound(t, hash) && forall h | h in order :: h in t
    requires forall i, j | 0 <= i < j < |order| :: order[i] != order[j]
    ensures Apart(Listed(t, order))
    ensures forall p | p in Listed(t, order) :: hash(p.0) in order && p in t[hash(p.0)]
    ensures |Listed(t, order)| == |Keys(t, Elems(order))|
  {
    if order == [] {
      assert Keys(t, Elems(order)) == {};
    } else {
      var h, rest, more := order[0], order[1..], Listed(t, order[1..]);
      ListedOnce(t, hash, rest);
      var b, all := t[h], Listed(t, order);
      assert InPlace(b, hash, h) && h !in rest;
      forall p | p in all ensures hash(p.0) in order && p in t[hash(p.0)] {
        if p !in more { assert p in b; }
      }
      forall i, j | 0 <= i < j < |all| ensures all[i].0 != all[j].0 {
        if j >= |b| {
          assert all[j] == more[j - |b|];
          if i < |b| { assert hash(all[i].0) == h; } else { assert all[i] == more[i - |b|]; }
        }
      }
      BucketKeys(t, hash, Elems(rest), h);
      assert Elems(order) == Elems(rest) + {h};
    }
  }

  lemma {:induction false} ListedAll<K, V>(t: Table<K, V>, order: seq<nat>, h: nat)
    requires h in order && forall h | h in order :: h in t
    ensures forall p | p in t[h] :: p in Listed(t, order)
  {
    if h != order[0] {
      ListedAll(t, order[1..], h);
    }
  }

  /** The loop over a fresh iterator stops after as many steps as the map has pairs. */
  lemma LoopLength<K, V>(t: Table<K, V>, hash: K -> nat, order: seq<nat>)
    requires Sound(t, hash) && Complete(t, order)
    ensures |Listed(t, order)| == |Keys(t, t.Keys)|
    ensures Apart(Listed(t, order)) && forall h | h in t :: forall p | p in t[h] :: p in Listed(t, order)
  {
    ListedOnce(t, hash, order);
    forall h | h in t ensures forall p | p in t[h] :: p in Listed(t, order) {
      ListedAll(t, order, h);
    }
    assert Elems(order) == t.Keys;
  }
}
