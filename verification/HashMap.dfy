/** The preprocessor's hash map: open addressing with linear probing, resizing, and holes left by deletion.  */
module HashMap {
  import opened Wrappers

  datatype Slot = Empty | Elem(key: string, value: string)

  // ---- probing, on the contents of the table ----

  function Sum(s: string): nat { if s == "" then 0 else Sum(s[..|s|-1]) + s[|s|-1] as int }

  function Hash(key: string, n: nat): (h: nat)
    requires n > 0
    ensures h < n
  {
    Sum(key) % n
  }

  /** The slot `d` places after `h`, around the end of the table. */
  function Around(h: nat, d: nat, n: nat): (i: nat)
    requires h < n && d < n
    ensures i < n
  {
    if h + d < n then h + d else h + d - n
  }

  /** Probing ends at an empty slot or at the key. */
  predicate Stops(s: seq<Slot>, key: string, i: nat)
    requires i < |s|
  {
    s[i].Empty? || s[i].key == key
  }

  /** How far from `h` probing goes, starting `d` places from it; |s| if it never ends. */
  function Steps(s: seq<Slot>, key: string, h: nat, d: nat): (r: nat)
    requires h < |s| && d <= |s|
    ensures d <= r <= |s|
    ensures r < |s| ==> Stops(s, key, Around(h, r, |s|))
    ensures forall x :: d <= x < r ==> !Stops(s, key, Around(h, x, |s|))
    decreases |s| - d
  {
    if d == |s| || Stops(s, key, Around(h, d, |s|)) then d else Steps(s, key, h, d + 1)
  }

  function Distance(s: seq<Slot>, key: string): nat
    requires |s| > 0
  {
    Steps(s, key, Hash(key, |s|), 0)
  }

  predicate HasEmpty(s: seq<Slot>) { exists e :: 0 <= e < |s| && s[e].Empty? }

  /** Any slot is some distance from any other. */
  lemma AroundReaches(h: nat, e: nat, n: nat) returns (d: nat)
    requires h < n && e < n
    ensures d < n && Around(h, d, n) == e
  {
    d := if h <= e then e - h else e - h + n;
  }

  lemma AroundDiffers(h: nat, c: nat, d: nat, n: nat)
    requires h < n && c < n && d < n && c != d
    ensures Around(h, c, n) != Around(h, d, n)
  {
  }

  /** With an empty slot somewhere, probing ends. */
  lemma ProbeEnds(s: seq<Slot>, key: string)
    requires HasEmpty(s)
    ensures Distance(s, key) < |s|
  {
    var e :| 0 <= e < |s| && s[e].Empty?;
    var d := AroundReaches(Hash(key, |s|), e, |s|);
  }

  /** The slot where probing ends. */
  function Place(s: seq<Slot>, key: string): (i: nat)
    requires HasEmpty(s)
    ensures i < |s| && Stops(s, key, i)
  {
    ProbeEnds(s, key);
    Around(Hash(key, |s|), Distance(s, key), |s|)
  }

  function Lookup(s: seq<Slot>, key: string): Option<string>
    requires HasEmpty(s)
  {
    var e := s[Place(s, key)];
    if e.Empty? then None else Some(e.value)
  }

  /** Every stored key is where probing for it ends. */
  predicate Probed(s: seq<Slot>) {
    HasEmpty(s) && forall i :: 0 <= i < |s| && s[i].Elem? ==> Place(s, s[i].key) == i
  }

  function Keys(s: seq<Slot>): set<string> { set i | 0 <= i < |s| && s[i].Elem? :: s[i].key }

  /** The finite map that a probed table stands for. */
  function Dict(s: seq<Slot>): map<string, string>
    requires HasEmpty(s)
  {
    map k | k in Keys(s) && Lookup(s, k).Some? :: Lookup(s, k).value
  }

  lemma LookupIsDict(s: seq<Slot>, key: string)
    requires HasEmpty(s)
    ensures Lookup(s, key) == if key in Dict(s) then Some(Dict(s)[key]) else None
  {
    var i := Place(s, key);
    if s[i].Elem? {
      assert s[i].key == key && key in Keys(s);
    }
  }

  lemma SameDict(s: seq<Slot>, m: map<string, string>)
    requires HasEmpty(s) && forall k :: Lookup(s, k) == if k in m then Some(m[k]) else None
    ensures Dict(s) == m
  {
    forall k ensures k in Dict(s) <==> k in m {
      LookupIsDict(s, k);
    }
  }

  /** A probe goes to the same place in another table if it passes the same way. */
  lemma SamePlace(s: seq<Slot>, t: seq<Slot>, key: string)
    requires HasEmpty(s) && HasEmpty(t) && |s| == |t|
    requires forall d :: 0 <= d < Distance(s, key) ==> !Stops(t, key, Around(Hash(key, |s|), d, |s|))
    requires Stops(t, key, Place(s, key))
    ensures Distance(t, key) == Distance(s, key) && Place(t, key) == Place(s, key)
  {
    ProbeEnds(s, key);
    ProbeEnds(t, key);
  }

  // ---- storing ----

  function Store(s: seq<Slot>, key: string, value: string): (t: seq<Slot>)
    requires HasEmpty(s)
    ensures |t| == |s|
  {
    s[Place(s, key) := Elem(key, value)]
  }

  lemma StoredElsewhere(s: seq<Slot>, key: string, value: string, other: string)
    requires HasEmpty(s) && HasEmpty(Store(s, key, value)) && other != key
    requires s[Place(s, other)].Elem? || Place(s, other) != Place(s, key)
    ensures Place(Store(s, key, value), other) == Place(s, other)
  {
    SamePlace(s, Store(s, key, value), other);
  }

  lemma StoredThere(s: seq<Slot>, key: string, value: string)
    requires HasEmpty(s) && HasEmpty(Store(s, key, value))
    ensures Place(Store(s, key, value), key) == Place(s, key)
  {
    ProbeEnds(s, key);
    var h, t := Hash(key, |s|), Store(s, key, value);
    forall d | 0 <= d < Distance(s, key)
      ensures !Stops(t, key, Around(h, d, |s|))
    {
      AroundDiffers(h, d, Distance(s, key), |s|);
    }
    SamePlace(s, t, key);
  }

  /** Storing keeps the table probed and changes the map at one key. */
  lemma StoreRefines(s: seq<Slot>, key: string, value: string)
    requires Probed(s) && HasEmpty(Store(s, key, value))
    ensures Probed(Store(s, key, value))
    ensures Dict(Store(s, key, value)) == Dict(s)[key := value]
  {
    var t, at := Store(s, key, value), Place(s, key);
    StoredThere(s, key, value);
    forall i | 0 <= i < |t| && t[i].Elem?
      ensures Place(t, t[i].key) == i
    {
      if i != at {
        StoredElsewhere(s, key, value, s[i].key);
      }
    }
    forall k
      ensures Lookup(t, k) == if k == key then Some(value) else Lookup(s, k)
    {
      if k != key {
        StoredOther(s, key, value, k);
      }
    }
    forall k
      ensures Lookup(t, k) == if k in Dict(s)[key := value] then Some(Dict(s)[key := value][k]) else None
    {
      LookupIsDict(s, k);
    }
    SameDict(t, Dict(s)[key := value]);
  }

  /** Other keys are found, or not found, as before. */
  lemma StoredOther(s: seq<Slot>, key: string, value: string, k: string)
    requires Probed(s) && HasEmpty(Store(s, key, value)) && k != key
    ensures Lookup(Store(s, key, value), k) == Lookup(s, k)
  {
    // if the probe for k ended at the slot now taken, it goes on to another empty slot
    if s[Place(s, k)].Elem? || Place(s, k) != Place(s, key) {
      StoredElsewhere(s, key, value, k);
    }
  }

  // ---- deleting ----

  function Remove(s: seq<Slot>, key: string): (t: seq<Slot>)
    requires HasEmpty(s)
    ensures |t| == |s|
  {
    s[Place(s, key) := Empty]
  }

  /** The freed slot lies on the way of `k`, before the slot where `k` is. */
  predicate Crosses(s: seq<Slot>, k: string, at: nat)
    requires |s| > 0
  {
    exists d :: 0 <= d < Distance(s, k) && Around(Hash(k, |s|), d, |s|) == at
  }

  lemma RemovedHasEmpty(s: seq<Slot>, key: string)
    requires HasEmpty(s)
    ensures HasEmpty(Remove(s, key)) && Remove(s, key)[Place(s, key)].Empty?
  {
    assert Remove(s, key)[Place(s, key)].Empty?;
  }

  lemma RemovedUncrossed(s: seq<Slot>, key: string, k: string)
    requires HasEmpty(s) && HasEmpty(Remove(s, key)) && !Crosses(s, k, Place(s, key))
    ensures Place(Remove(s, key), k) == Place(s, k)
  {
    ProbeEnds(s, k);
    SamePlace(s, Remove(s, key), k);
  }

  /** A probe that meets the freed slot ends there. */
  lemma RemovedCrossed(s: seq<Slot>, key: string, k: string)
    requires HasEmpty(s) && HasEmpty(Remove(s, key)) && Crosses(s, k, Place(s, key))
    ensures Lookup(Remove(s, key), k) == None
  {
    var t, h := Remove(s, key), Hash(k, |s|);
    var d :| 0 <= d < Distance(s, k) && Around(h, d, |s|) == Place(s, key);
    ProbeEnds(s, k);
    forall x | 0 <= x < d
      ensures !Stops(t, k, Around(h, x, |s|))
    {
      AroundDiffers(h, x, d, |s|);
    }
    assert Stops(t, k, Around(h, d, |s|));
    ProbeEnds(t, k);
  }

  /** The deleted key is gone. */
  lemma RemovedGone(s: seq<Slot>, key: string)
    requires HasEmpty(s)
    ensures HasEmpty(Remove(s, key)) && Lookup(Remove(s, key), key) == None
  {
    RemovedHasEmpty(s, key);
    if Crosses(s, key, Place(s, key)) {
      RemovedCrossed(s, key, key);
    } else {
      RemovedUncrossed(s, key, key);
    }
  }

  /** Another key is found as before exactly when it was not stored or its way does not cross the freed slot. */
  lemma RemoveExactly(s: seq<Slot>, key: string, k: string)
    requires Probed(s) && k != key && key in Dict(s)
    ensures HasEmpty(Remove(s, key))
    ensures Lookup(Remove(s, key), k) == Lookup(s, k) <==> Lookup(s, k) == None || !Crosses(s, k, Place(s, key))
    ensures Lookup(s, k) != None && Crosses(s, k, Place(s, key)) ==> Lookup(Remove(s, key), k) == None
  {
    RemovedHasEmpty(s, key);
    LookupIsDict(s, key);
    if Crosses(s, k, Place(s, key)) {
      RemovedCrossed(s, key, k);
    } else {
      RemovedUncrossed(s, key, k);
    }
  }

  /** The table stays probed exactly when no way to a stored key crosses the freed slot. */
  lemma RemoveProbed(s: seq<Slot>, key: string)
    requires Probed(s) && key in Dict(s)
    ensures HasEmpty(Remove(s, key))
    ensures Probed(Remove(s, key)) <==>
      forall i :: 0 <= i < |s| && s[i].Elem? && s[i].key != key ==> !Crosses(s, s[i].key, Place(s, key))
  {
    var t := Remove(s, key);
    RemovedHasEmpty(s, key);
    LookupIsDict(s, key);
    forall i | 0 <= i < |s| && t[i].Elem?
      ensures Place(t, t[i].key) == i <==> !Crosses(s, s[i].key, Place(s, key))
    {
      if Crosses(s, s[i].key, Place(s, key)) {
        RemovedCrossed(s, key, s[i].key);
      } else {
        RemovedUncrossed(s, key, s[i].key);
      }
    }
    forall i | 0 <= i < |s| && s[i].Elem?
      ensures t[i].Elem? <==> s[i].key != key
    {
      assert Place(s, s[i].key) == i;
    }
  }

  // ---- rehashing ----

  /** The pairs stored in the first `i` slots. */
  function DictUpTo(s: seq<Slot>, i: nat): map<string, string>
    requires HasEmpty(s)
  {
    map k | k in Dict(s) && Place(s, k) < i :: Dict(s)[k]
  }

  lemma DictGrows(s: seq<Slot>, i: nat)
    requires Probed(s) && i < |s|
    ensures DictUpTo(s, i + 1) ==
            if s[i].Elem? then DictUpTo(s, i)[s[i].key := s[i].value] else DictUpTo(s, i)
  {
    hide Place, Keys;
    if s[i].Elem? {
      LookupIsDict(s, s[i].key);
    }
    forall k | k in Dict(s) && Place(s, k) == i
      ensures s[i].Elem? && k == s[i].key && Dict(s)[k] == s[i].value
    {
      LookupIsDict(s, k);
    }
  }

  lemma DictWhole(s: seq<Slot>)
    requires HasEmpty(s)
    ensures DictUpTo(s, 0) == map[] && DictUpTo(s, |s|) == Dict(s)
  {
  }

  lemma NextAround(h: nat, d: nat, n: nat)
    requires h < n && d + 1 < n
    ensures (Around(h, d, n) + 1) % n == Around(h, d + 1, n)
  {
    var x := Around(h, d, n) + 1;
    if x == n {
      assert n % n == 0;
    } else {
      assert x < n;
      SmallMod(x, n);
    }
  }

  lemma AroundStart(h: nat, n: nat)
    requires h < n
    ensures Around(h, 0, n) == h
  {
  }

  lemma SmallMod(x: nat, n: nat)
    requires x < n
    ensures x % n == x
  {
  }

  // ---- occupancy ----

  function Occupied(s: seq<Slot>): nat {
    if s == [] then 0 else Occupied(s[..|s|-1]) + if s[|s|-1].Elem? then 1 else 0
  }

  lemma {:induction false} OccupiedFull(s: seq<Slot>)
    requires Occupied(s) == |s|
    ensures !HasEmpty(s)
    decreases |s|
  {
    if s != [] {
      var r := s[..|s|-1];
      OccupiedBound(r);
      OccupiedFull(r);
      assert forall e :: 0 <= e < |r| ==> s[e] == r[e];
    }
  }

  lemma {:induction false} OccupiedBound(s: seq<Slot>)
    ensures Occupied(s) <= |s|
    ensures Occupied(s) < |s| ==> HasEmpty(s)
    decreases |s|
  {
    if s != [] {
      var r := s[..|s|-1];
      OccupiedBound(r);
      if HasEmpty(r) {
        var e :| 0 <= e < |r| && r[e].Empty?;
        assert s[e].Empty?;
      }
    }
  }

  lemma {:induction false} OccupiedUpdate(s: seq<Slot>, i: nat, e: Slot)
    requires i < |s|
    ensures Occupied(s[i := e]) == Occupied(s) + (if e.Elem? then 1 else 0) - if s[i].Elem? then 1 else 0
    decreases |s|
  {
    var r := s[..|s|-1];
    if i < |s| - 1 {
      OccupiedUpdate(r, i, e);
      assert s[i := e][..|s|-1] == r[i := e];
    } else {
      assert s[i := e][..|s|-1] == r;
    }
  }

  lemma {:induction false} OccupiedNone(s: seq<Slot>)
    requires forall i :: 0 <= i < |s| ==> s[i].Empty?
    ensures Occupied(s) == 0
    decreases |s|
  {
    if s != [] {
      OccupiedNone(s[..|s|-1]);
    }
  }

  lemma {:induction false} SumPrefix(s: string, i: nat)
    requires i < |s|
    ensures Sum(s[..i+1]) == Sum(s[..i]) + s[i] as int
  {
    assert s[..i+1][..i] == s[..i];
  }

  lemma {:induction false} SumParts(a: string, b: string)
    ensures Sum(a + b) == Sum(a) + Sum(b)
    decreases |b|
  {
    if b == "" {
      assert a + b == a;
    } else {
      var n := |b| - 1;
      SumParts(a, b[..n]);
      assert (a + b)[..|a + b| - 1] == a + b[..n];
    }
  }

  /** The hash of a key is made of those of its parts, in any order, down to its bytes. */
  lemma HashParts(a: string, b: string, c: char, n: nat)
    requires n > 0
    ensures Hash("", n) == 0 && Hash([c], n) == c as int % n
    ensures Hash(a + b, n) == (Hash(a, n) + Hash(b, n)) % n == Hash(b + a, n)
  {
    SumParts(a, b);
    SumParts(b, a);
    assert [c][..0] == "";
    assert Sum([c]) == Sum([c][..0]) + c as int;
    ModSum(Sum(a), Sum(b), n);
  }

  lemma ModSum(x: nat, y: nat, n: nat)
    requires n > 0
    ensures (x + y) % n == (x % n + y % n) % n
  {
    var z := x % n + y % n;
    var q := x / n + y / n + z / n;
    assert x + y == n * q + z % n by {
      assert n * q == n * (x / n) + n * (y / n) + n * (z / n);
    }
    OneRemainder(x + y, q, z % n, n);
  }

  lemma OneRemainder(a: nat, q: int, r: nat, n: nat)
    requires r < n && a == n * q + r
    ensures a % n == r
  {
    var d := q - a / n;
    assert n * d == n * q - n * (a / n) == a % n - r;
    assert n * -d == -(n * d);
    if d >= 1 {
      AtLeast(n, d);
    } else if d <= -1 {
      AtLeast(n, -d);
    }
  }

  lemma AtLeast(n: nat, d: int)
    requires d >= 1
    ensures n * d >= n
  {
  }

  method HashFunc(key: string, size: nat) returns (h: nat)
    requires size > 0
    ensures h == Hash(key, size)
  {
    var hash, p := 0, 0;
    while p < |key|
      invariant p <= |key| && hash == Sum(key[..p])
    {
      SumPrefix(key, p);
      hash := hash + key[p] as int;
      p := p + 1;
    }
    assert key[..p] == key;
    return hash % size;
  }

  // ---- a table with holes ----

  /** A probe whose first slot stops it. */
  lemma PlaceFirst(s: seq<Slot>, key: string)
    requires HasEmpty(s) && Stops(s, key, Hash(key, |s|))
    ensures Place(s, key) == Hash(key, |s|)
  {
    hide Hash;
    AroundStart(Hash(key, |s|), |s|);
  }

  /** A probe whose second slot is the first to stop it. */
  lemma PlaceSecond(s: seq<Slot>, key: string, next: nat)
    requires HasEmpty(s) && 1 < |s| && next == Around(Hash(key, |s|), 1, |s|)
    requires !Stops(s, key, Hash(key, |s|)) && Stops(s, key, next)
    ensures Place(s, key) == next
  {
    hide Hash;
    AroundStart(Hash(key, |s|), |s|);
    assert Steps(s, key, Hash(key, |s|), 0) == Steps(s, key, Hash(key, |s|), 1);
  }

  /** A deleted key can come back with an old value: stored behind another key, stored again in the hole that key left,
      deleted there, and uncovered when the other key returns. */
  lemma Resurrected(s: seq<Slot>, a: string, b: string, v: string, old1: string, new1: string)
    requires |s| > 2 && (forall i :: 0 <= i < |s| ==> s[i].Empty?) && a != b && Hash(a, |s|) == Hash(b, |s|)
    ensures HasEmpty(s)
    ensures var s1 := Store(s, a, v);
      HasEmpty(s1) &&
      var s2 := Store(s1, b, old1);
      HasEmpty(s2) && HasEmpty(Remove(s2, a)) &&
      var s3 := Store(Remove(s2, a), b, new1);
      HasEmpty(s3) && HasEmpty(Remove(s3, b)) && Lookup(Remove(s3, b), b) == None &&
      var s4 := Store(Remove(s3, b), a, v);
      HasEmpty(s4) && Lookup(s4, b) == Some(old1)
  {
    hide Hash, Steps, Place;
    var n, h := |s|, Hash(a, |s|);
    var next, third := Around(h, 1, n), Around(h, 2, n);
    assert s[third].Empty? && h != next && h != third && next != third;
    var A, B1, B2 := Elem(a, v), Elem(b, old1), Elem(b, new1);
    PlaceFirst(s, a);
    var s1 := s[h := A];
    assert s1[third].Empty?;
    PlaceSecond(s1, b, next);
    var s2 := s1[next := B1];
    assert s2[third].Empty?;
    PlaceFirst(s2, a);
    var r2 := s2[h := Empty];
    assert r2[third].Empty?;
    PlaceFirst(r2, b);
    var s3 := r2[h := B2];
    assert s3[third].Empty?;
    PlaceFirst(s3, b);
    var r3 := s3[h := Empty];
    assert r3[third].Empty?;
    PlaceFirst(r3, b);
    PlaceFirst(r3, a);
    var s4 := r3[h := A];
    assert s4[third].Empty?;
    PlaceSecond(s4, b, next);
  }
}
