/** The preprocessor's hash map as an object, against a model of its whole state, and histories of operations against
    a finite map. */
module HashTable {
  import opened Wrappers
  import opened HashMap

  // ---- the state and the operations on it ----

  datatype State = State(slots: seq<Slot>, cnt: nat)

  /** What every sequence of operations keeps; it leaves an empty slot for every probe to end at. */
  predicate Bounded(m: State) {
    |m.slots| > 4 && Occupied(m.slots) <= m.cnt && 4 * m.cnt <= 3 * |m.slots| + 4
  }

  predicate Roomy(m: State) { Bounded(m) && 4 * m.cnt <= 3 * |m.slots| }

  lemma BoundedHasEmpty(m: State)
    requires Bounded(m)
    ensures m.cnt < |m.slots| && HasEmpty(m.slots)
  {
    OccupiedBound(m.slots);
  }

  function Fresh(size: nat): (m: State)
    ensures |m.slots| == size && (Roomy(m) <==> size > 4)
  {
    var s := seq(size, _ => Empty);
    OccupiedNone(s);
    State(s, 0)
  }

  /** The insert that takes the last slot of a table is let through, without a resize before it, exactly when there are
      four slots or fewer; then no probe for another key ends. */
  lemma LastSlotTaken(m: State, key: string, value: string)
    requires Occupied(m.slots) == m.cnt == |m.slots| - 1 && HasEmpty(m.slots)
    requires m.slots[Place(m.slots, key)].Empty?
    ensures !HasEmpty(Store(m.slots, key, value))
    ensures 4 * m.cnt <= 3 * |m.slots| <==> |m.slots| <= 4
  {
    var at := Place(m.slots, key);
    OccupiedUpdate(m.slots, at, Elem(key, value));
    OccupiedFull(Store(m.slots, key, value));
  }

  /** Storing without a resize; only a key that takes a new slot is counted. */
  function Stored(m: State, key: string, value: string): (r: State)
    requires Roomy(m)
    ensures Bounded(r) && |r.slots| == |m.slots| && r.cnt <= m.cnt + 1
  {
    BoundedHasEmpty(m);
    var at := Place(m.slots, key);
    OccupiedUpdate(m.slots, at, Elem(key, value));
    State(Store(m.slots, key, value), m.cnt + if m.slots[at].Empty? then 1 else 0)
  }

  /** The pairs of the first `i` slots, stored in that order in a table of twice the size; it stays roomy all along. */
  function Refilled(s: seq<Slot>, i: nat): (r: State)
    requires |s| > 4 && i <= |s|
    ensures Roomy(r) && |r.slots| == 2 * |s| && r.cnt <= i
  {
    if i == 0 then Fresh(2 * |s|)
    else if s[i - 1].Elem? then Stored(Refilled(s, i - 1), s[i - 1].key, s[i - 1].value)
    else Refilled(s, i - 1)
  }

  /** More than three quarters full: twice the size. */
  function Resized(m: State): (r: State)
    requires Bounded(m)
    ensures Roomy(r)
  {
    if 4 * m.cnt > 3 * |m.slots| then Refilled(m.slots, |m.slots|) else m
  }

  function WithInsert(m: State, key: string, value: string): (r: State)
    requires Bounded(m)
    ensures Bounded(r)
  {
    Stored(Resized(m), key, value)
  }

  function Found(m: State, key: string): Option<string>
    requires Bounded(m)
  {
    BoundedHasEmpty(m);
    Lookup(m.slots, key)
  }

  /** A hole, and the count as it was. */
  function WithDelete(m: State, key: string): (r: State)
    requires Bounded(m)
    ensures Bounded(r)
  {
    BoundedHasEmpty(m);
    var at := Place(m.slots, key);
    OccupiedUpdate(m.slots, at, Empty);
    if m.slots[at].Empty? then m else State(Remove(m.slots, key), m.cnt)
  }

  // ---- the operations against the finite map ----

  /** A table in which every stored key is found, and the map it stands for. */
  ghost predicate StandsFor(m: State, d: map<string, string>) {
    Bounded(m) && Probed(m.slots) && Dict(m.slots) == d
  }

  lemma FreshIsEmpty(size: nat)
    requires size > 4
    ensures StandsFor(Fresh(size), map[])
  {
    var s := Fresh(size).slots;
    assert s[0].Empty?;
  }

  lemma StoredRefines(m: State, d: map<string, string>, key: string, value: string)
    requires StandsFor(m, d) && Roomy(m)
    ensures StandsFor(Stored(m, key, value), d[key := value])
  {
    hide Dict, Probed, Place, Store, Occupied;
    BoundedHasEmpty(m);
    BoundedHasEmpty(Stored(m, key, value));
    StoreRefines(m.slots, key, value);
  }

  lemma {:induction false} RefilledStandsFor(s: seq<Slot>, i: nat)
    requires |s| > 4 && i <= |s| && Probed(s)
    ensures StandsFor(Refilled(s, i), DictUpTo(s, i))
  {
    hide Dict, Probed, DictUpTo, StandsFor, Stored;
    ProbedHasEmpty(s);
    if i == 0 {
      FreshIsEmpty(2 * |s|);
      DictWhole(s);
    } else {
      RefilledStandsFor(s, i - 1);
      DictGrows(s, i - 1);
      if s[i - 1].Elem? {
        StoredRefines(Refilled(s, i - 1), DictUpTo(s, i - 1), s[i - 1].key, s[i - 1].value);
      }
    }
  }

  lemma ProbedHasEmpty(s: seq<Slot>)
    requires Probed(s)
    ensures HasEmpty(s)
  {
  }

  /** A resize keeps the map. */
  lemma ResizedRefines(m: State, d: map<string, string>)
    requires StandsFor(m, d)
    ensures StandsFor(Resized(m), d)
  {
    hide Refilled;
    RefilledStandsFor(m.slots, |m.slots|);
    DictWhole(m.slots);
  }

  /** An insert, with or without a resize, changes the map at its key only. */
  lemma InsertRefines(m: State, d: map<string, string>, key: string, value: string)
    requires StandsFor(m, d)
    ensures StandsFor(WithInsert(m, key, value), d[key := value])
  {
    hide StandsFor, Resized, Stored;
    ResizedRefines(m, d);
    StandsForBounded(m, d);
    StoredRefines(Resized(m), d, key, value);
  }

  lemma StandsForBounded(m: State, d: map<string, string>)
    requires StandsFor(m, d)
    ensures Bounded(m)
  {
  }

  /** Even in a table with unreachable keys, a key just inserted is found and a key just deleted is not. */
  lemma InsertedFound(m: State, key: string, value: string)
    requires Bounded(m)
    ensures Found(WithInsert(m, key, value), key) == Some(value)
    ensures Found(WithDelete(m, key), key) == None
  {
    var r := Resized(m);
    BoundedHasEmpty(m);
    BoundedHasEmpty(r);
    BoundedHasEmpty(WithInsert(m, key, value));
    BoundedHasEmpty(WithDelete(m, key));
    hide Place, Resized, Occupied;
    StoredThere(r.slots, key, value);
    RemovedGone(m.slots, key);
  }

  /** No way to another stored key crosses the slot that deleting `key` frees. */
  ghost predicate Harmless(m: State, key: string)
    requires Bounded(m)
  {
    BoundedHasEmpty(m);
    Found(m, key) == None ||
    forall i :: 0 <= i < |m.slots| && m.slots[i].Elem? && m.slots[i].key != key ==>
      !Crosses(m.slots, m.slots[i].key, Place(m.slots, key))
  }

  /** A harmless delete removes the key from the map; any other leaves some other key of the map unfound. */
  lemma DeleteRefines(m: State, d: map<string, string>, key: string)
    requires StandsFor(m, d)
    ensures Harmless(m, key) ==> StandsFor(WithDelete(m, key), d - {key})
    ensures !Harmless(m, key) ==> exists k :: k in d && k != key && Found(WithDelete(m, key), k) == None
  {
    BoundedHasEmpty(m);
    BoundedHasEmpty(WithDelete(m, key));
    LookupIsDict(m.slots, key);
    hide Occupied;
    if key !in d {
      assert d - {key} == d;
    } else {
      RemoveProbed(m.slots, key);
      if Harmless(m, key) {
        RemovedDict(m.slots, key);
      } else {
        var i :| 0 <= i < |m.slots| && m.slots[i].Elem? && m.slots[i].key != key
                 && Crosses(m.slots, m.slots[i].key, Place(m.slots, key));
        var k := m.slots[i].key;
        StoredIsInDict(m.slots, i);
        RemovedCrossed(m.slots, key, k);
        assert k in d && k != key && Found(WithDelete(m, key), k) == None;
      }
    }
  }

  lemma StoredIsInDict(s: seq<Slot>, i: nat)
    requires Probed(s) && i < |s| && s[i].Elem?
    ensures s[i].key in Dict(s)
  {
    LookupIsDict(s, s[i].key);
  }

  lemma RemovedDict(s: seq<Slot>, key: string)
    requires Probed(s) && HasEmpty(Remove(s, key)) && Probed(Remove(s, key)) && key in Dict(s)
    ensures Dict(Remove(s, key)) == Dict(s) - {key}
  {
    var t, d := Remove(s, key), Dict(s) - {key};
    forall k
      ensures Lookup(t, k) == if k in d then Some(d[k]) else None
    {
      LookupIsDict(s, k);
      if k == key {
        RemovedGone(s, key);
      } else {
        KeptLookup(s, key, k);
      }
    }
    SameDict(t, d);
  }

  lemma KeptLookup(s: seq<Slot>, key: string, k: string)
    requires Probed(s) && HasEmpty(Remove(s, key)) && Probed(Remove(s, key)) && key in Dict(s) && k != key
    ensures Lookup(Remove(s, key), k) == Lookup(s, k)
  {
    RemoveExactly(s, key, k);
    RemoveProbed(s, key);
    LookupIsDict(s, k);
  }

  // ---- histories ----

  datatype Command = Insert(key: string, value: string) | Delete(key: string) | Query(key: string)

  function Next(m: State, c: Command): (r: State)
    requires Bounded(m)
    ensures Bounded(r)
  {
    match c
    case Insert(key, value) => WithInsert(m, key, value)
    case Delete(key) => WithDelete(m, key)
    case Query(_) => m
  }

  function MapNext(d: map<string, string>, c: Command): map<string, string> {
    match c
    case Insert(key, value) => d[key := value]
    case Delete(key) => d - {key}
    case Query(_) => d
  }

  function After(m: State, cs: seq<Command>): (r: State)
    requires Bounded(m)
    ensures Bounded(r)
    decreases |cs|
  {
    if cs == [] then m else After(Next(m, cs[0]), cs[1..])
  }

  function Answers(m: State, cs: seq<Command>): seq<Option<string>>
    requires Bounded(m)
    decreases |cs|
  {
    if cs == [] then []
    else (if cs[0].Query? then [Found(m, cs[0].key)] else []) + Answers(Next(m, cs[0]), cs[1..])
  }

  function MapFound(d: map<string, string>, key: string): Option<string> { if key in d then Some(d[key]) else None }

  function MapAnswers(d: map<string, string>, cs: seq<Command>): seq<Option<string>>
    decreases |cs|
  {
    if cs == [] then []
    else (if cs[0].Query? then [MapFound(d, cs[0].key)] else []) + MapAnswers(MapNext(d, cs[0]), cs[1..])
  }

  /** Every delete of a history is harmless where it happens. */
  ghost predicate Tidy(m: State, cs: seq<Command>)
    requires Bounded(m)
    decreases |cs|
  {
    cs == [] || ((cs[0].Delete? ==> Harmless(m, cs[0].key)) && Tidy(Next(m, cs[0]), cs[1..]))
  }

  /** After every command of a history, every key is found in the table as in the map. */
  ghost predicate Agrees(m: State, d: map<string, string>, cs: seq<Command>)
    requires Bounded(m)
    decreases |cs|
  {
    && (forall k :: Found(m, k) == MapFound(d, k))
    && (cs == [] || Agrees(Next(m, cs[0]), MapNext(d, cs[0]), cs[1..]))
  }

  lemma FoundIsMapFound(m: State, d: map<string, string>, k: string)
    requires StandsFor(m, d)
    ensures Found(m, k) == MapFound(d, k)
  {
    BoundedHasEmpty(m);
    LookupIsDict(m.slots, k);
  }

  lemma NextRefines(m: State, d: map<string, string>, c: Command)
    requires StandsFor(m, d) && (c.Delete? ==> Harmless(m, c.key))
    ensures StandsFor(Next(m, c), MapNext(d, c))
  {
    hide StandsFor, WithInsert, WithDelete, Harmless;
    match c {
      case Insert(key, value) => InsertRefines(m, d, key, value);
      case Delete(key) => DeleteRefines(m, d, key);
      case Query(_) =>
    }
  }

  /** Over any history the table answers every question as the finite map does if and only if every delete is
      harmless. */
  lemma {:induction false} MapExactly(m: State, d: map<string, string>, cs: seq<Command>)
    requires StandsFor(m, d)
    ensures Agrees(m, d, cs) <==> Tidy(m, cs)
    ensures Tidy(m, cs) ==> Answers(m, cs) == MapAnswers(d, cs)
    decreases |cs|
  {
    hide StandsFor, Found, Next, Harmless, WithDelete;
    StandsForBounded(m, d);
    forall k { FoundIsMapFound(m, d, k); }
    if cs != [] {
      if cs[0].Delete? && !Harmless(m, cs[0].key) {
        UntidySeen(m, d, cs[0], cs[1..]);
      } else {
        NextRefines(m, d, cs[0]);
        MapExactly(Next(m, cs[0]), MapNext(d, cs[0]), cs[1..]);
      }
    }
  }

  lemma UntidySeen(m: State, d: map<string, string>, c: Command, cs: seq<Command>)
    requires StandsFor(m, d) && c.Delete? && !Harmless(m, c.key)
    ensures !Agrees(Next(m, c), MapNext(d, c), cs)
  {
    hide StandsFor, Found, Harmless, WithDelete;
    StandsForBounded(m, d);
    DeleteRefines(m, d, c.key);
    var k :| k in d && k != c.key && Found(WithDelete(m, c.key), k) == None;
    assert MapFound(d - {c.key}, k) != None;
  }

  // ---- the object ----

  class Table {
    var elem: array<Slot>
    var cnt: nat
    var size: nat

    ghost function View(): State
      reads this, elem
    {
      State(elem[..], cnt)
    }

    ghost predicate Valid()
      reads this, elem
    {
      elem.Length == size && Bounded(View())
    }

    /** createHashMap.  A table of four slots or fewer is not sound: it could fill up. */
    constructor (size: nat)
      ensures fresh(elem) && View() == Fresh(size) && elem.Length == this.size && (Valid() <==> size > 4)
    {
      this.size, cnt := size, 0;
      elem := new Slot[size](_ => Empty);
      new;
      assert elem[..] == Fresh(size).slots;
    }

    /** The probe loop that insert, get and deleteKey share. */
    method Find(key: string) returns (index: nat)
      requires Valid()
      ensures HasEmpty(elem[..]) && index == Place(elem[..], key)
    {
      BoundedHasEmpty(View());
      ghost var s, d := elem[..], 0;
      ProbeEnds(s, key);
      index := HashFunc(key, size);
      ghost var h := index;
      hide Hash, Around, Occupied;
      AroundStart(h, size);
      while elem[index].Elem? && elem[index].key != key
        invariant d < size && index == Around(h, d, size)
        invariant Steps(s, key, h, 0) == Steps(s, key, h, d)
        decreases size - d
      {
        NextAround(h, d, size);
        d := d + 1;
        index := index + 1;
        index := index % size;
      }
    }

    method Get(key: string) returns (value: Option<string>)
      requires Valid()
      ensures value == Found(View(), key)
    {
      var index := Find(key);
      return if elem[index].Empty? then None else Some(elem[index].value);
    }

    method DeleteKey(key: string)
      requires Valid()
      modifies elem
      ensures Valid() && View() == WithDelete(old(View()), key)
    {
      hide Occupied;
      ghost var r := WithDelete(View(), key);
      var index := Find(key);
      if elem[index].Elem? {
        ghost var s := elem[..];
        elem[index] := Empty;
        assert elem[..] == s[index := Empty] == r.slots;
      }
      assert View() == r;
    }

    /** Doubles the table when it is more than three quarters full, then stores. */
    method Insert(key: string, value: string)
      requires Valid()
      modifies this, elem
      ensures Valid() && View() == WithInsert(old(View()), key, value)
      ensures if old(Roomy(View())) then elem == old(elem) else fresh(elem)
      decreases if 4 * cnt > 3 * size then 1 else 0
    {
      hide Occupied, Refilled, Stored;
      if cnt * 4 > size * 3 {
        var bigger := Rehash();
        elem, cnt, size := bigger.elem, bigger.cnt, bigger.size;
      }
      StoreAt(key, value);
    }

    /** The part of insert after any resize. */
    method StoreAt(key: string, value: string)
      requires Valid() && Roomy(View())
      modifies this`cnt, elem
      ensures Valid() && View() == Stored(old(View()), key, value)
    {
      hide Occupied;
      ghost var r := Stored(View(), key, value);
      var index := Find(key);
      ghost var s := elem[..];
      if elem[index].Empty? {
        cnt := cnt + 1;
      }
      elem[index] := Elem(key, value);
      assert elem[..] == s[index := Elem(key, value)] == r.slots;
      assert View() == r;
    }

    /** Every stored pair, in the order of the slots, inserted into a table of twice the size; none of these inserts
        resizes again. */
    method Rehash() returns (bigger: Table)
      requires Valid()
      ensures fresh(bigger) && fresh(bigger.elem) && bigger.Valid() && bigger.View() == Refilled(elem[..], size)
      decreases 1, 0
    {
      hide Occupied, Stored;
      bigger := new Table(2 * size);
      ghost var first := bigger.elem;
      var i := 0;
      while i < size
        invariant i <= size && fresh(bigger) && bigger.elem == first && fresh(first)
        invariant bigger.Valid() && bigger.View() == Refilled(elem[..], i)
        invariant Valid() && unchanged(this) && unchanged(elem)
      {
        if elem[i].Elem? {
          bigger.Insert(elem[i].key, elem[i].value);
        }
        i := i + 1;
      }
    }
  }

  /** Any history of operations on a table. */
  method RunAll(t: Table, cs: seq<Command>) returns (answers: seq<Option<string>>)
    requires t.Valid()
    modifies t, t.elem
    ensures t.Valid() && (t.elem == old(t.elem) || fresh(t.elem))
    ensures t.View() == After(old(t.View()), cs) && answers == Answers(old(t.View()), cs)
  {
    hide Occupied, WithInsert, WithDelete, Found;
    answers := [];
    ghost var m := t.View();
    var i := 0;
    assert cs[0..] == cs;
    while i < |cs|
      invariant i <= |cs| && t.Valid() && (t.elem == old(t.elem) || fresh(t.elem))
      invariant After(m, cs) == After(t.View(), cs[i..])
      invariant Answers(m, cs) == answers + Answers(t.View(), cs[i..])
    {
      assert cs[i..][0] == cs[i] && cs[i..][1..] == cs[i + 1..];
      match cs[i] {
        case Insert(key, value) => t.Insert(key, value);
        case Delete(key) => t.DeleteKey(key);
        case Query(key) =>
          var a := t.Get(key);
          answers := answers + [a];
      }
      i := i + 1;
    }
    assert cs[i..] == [];
  }

  /** From createHashMap(6), over any history whose deletes are harmless, the answers are those of a finite map. */
  method RunFresh(cs: seq<Command>) returns (t: Table, answers: seq<Option<string>>)
    ensures fresh(t) && t.Valid()
    ensures Tidy(Fresh(6), cs) ==> answers == MapAnswers(map[], cs)
    ensures (forall i :: 0 <= i < |cs| ==> !cs[i].Delete?) ==> answers == MapAnswers(map[], cs)
  {
    t := new Table(6);
    answers := RunAll(t, cs);
    FreshIsEmpty(6);
    MapExactly(Fresh(6), map[], cs);
    if forall i :: 0 <= i < |cs| ==> !cs[i].Delete? {
      NoDeletes(Fresh(6), cs);
    }
  }

  lemma {:induction false} NoDeletes(m: State, cs: seq<Command>)
    requires Bounded(m) && forall i :: 0 <= i < |cs| ==> !cs[i].Delete?
    ensures Tidy(m, cs)
    decreases |cs|
  {
    if cs != [] {
      NoDeletes(Next(m, cs[0]), cs[1..]);
    }
  }
}
