/** The relation cache: values by OID in an array that starts at the lowest OID seen so far and grows at both ends.
    Bounds and sizes are 32 bit unsigned integers. */
module RelationCaches {
  import opened Wrappers

  type Oid = x: nat | x < 0x1_0000_0000

  /** The largest number of OIDs between the bounds for which one and a half times as many slots is still a
      32 bit size. */
  const MAX_SPAN: nat := 2863311530

  /** `cells[i]` is the slot of OID `lower + i`. */
  datatype View<V> = View(lower: Oid, upper: Oid, cells: seq<Option<V>>)

  function Empty<V>(): View<V> {
    View(0, 0, [])
  }

  predicate Valid<V>(v: View<V>) {
    if v.cells == [] then v.lower == 0 == v.upper
    else v.lower <= v.upper && v.upper - v.lower < |v.cells|
  }

  function Lookup<V>(v: View<V>, oid: Oid): Option<V>
    requires Valid(v)
  {
    if oid > v.upper || oid < v.lower || v.cells == [] then None else v.cells[oid - v.lower]
  }

  function LowerWith<V>(v: View<V>, oid: Oid): Oid {
    if v.lower == 0 || v.lower > oid then oid else v.lower
  }

  function UpperWith<V>(v: View<V>, oid: Oid): Oid {
    if v.upper < oid then oid else v.upper
  }

  function SpanWith<V>(v: View<V>, oid: Oid): nat
    requires Valid(v)
  {
    UpperWith(v, oid) - LowerWith(v, oid) + 1
  }

  predicate Resizes<V>(v: View<V>, oid: Oid) {
    v.lower == 0 || v.lower > oid || v.upper < oid
  }

  /** Where the first old slot goes when the array is copied. */
  function Shift<V>(v: View<V>, oid: Oid): nat {
    if v.lower > LowerWith(v, oid) then v.lower - LowerWith(v, oid) else 0
  }

  /** One and a half times the number of OIDs between the bounds, rounded down. */
  function SlotsFor(span: nat): (size: nat)
    ensures span <= size && (span <= MAX_SPAN ==> size < 0x1_0000_0000)
  {
    span * 3 / 2
  }

  function Copied<V>(cells: seq<Option<V>>, shift: nat, size: nat): (copy: seq<Option<V>>)
    ensures |copy| == size
  {
    seq(size, i requires 0 <= i < size => if shift <= i < shift + |cells| then cells[i - shift] else None)
  }

  function Put<V>(v: View<V>, oid: Oid, value: V): (v': View<V>)
    requires Valid(v)
    ensures Valid(v')
  {
    var lower := LowerWith(v, oid);
    var cells := if Resizes(v, oid) then Copied(v.cells, Shift(v, oid), SlotsFor(SpanWith(v, oid))) else v.cells;
    View(lower, UpperWith(v, oid), cells[oid - lower := Some(value)])
  }

  class RelationCache<V> {
    var cache: array<Option<V>>
    var lowerBound: Oid
    var upperBound: Oid

    ghost function Contents(): View<V>
      reads this, cache
    {
      View(lowerBound, upperBound, cache[..])
    }

    constructor ()
      ensures Contents() == Empty() && fresh(cache)
    {
      cache := new Option<V>[0];
      lowerBound := 0;
      upperBound := 0;
    }

    method Get(oid: Oid) returns (r: Option<V>)
      requires Valid(Contents())
      ensures r == Lookup(Contents(), oid)
    {
      if oid > upperBound || oid < lowerBound || cache.Length == 0 {
        return None;
      }
      r := cache[oid - lowerBound];
    }

    /** The new array, with the old slots from `diff` on as far as they fit. */
    method CopyTo(diff: nat, size: nat) returns (newCache: array<Option<V>>)
      requires diff <= size
      ensures fresh(newCache) && newCache[..] == Copied(cache[..], diff, size)
    {
      newCache := new Option<V>[size](_ => None);
      var i := 0;
      while i < cache.Length && diff + i < size
        invariant 0 <= i <= cache.Length && diff + i <= size
        invariant forall k :: 0 <= k < size ==>
                    newCache[k] == if diff <= k < diff + i then cache[k - diff] else None
      {
        newCache[diff + i] := cache[i];
        i := i + 1;
      }
    }

    method Set(oid: Oid, value: V)
      requires Valid(Contents()) && SpanWith(Contents(), oid) <= MAX_SPAN
      modifies this, cache
      ensures Contents() == Put(old(Contents()), oid, value)
      ensures fresh(cache) || cache == old(cache)
    {
      hide Copied;
      var oldLowerBound := lowerBound;
      var needsResizing := false;
      if lowerBound == 0 || lowerBound > oid {
        lowerBound := oid;
        needsResizing := true;
      }
      if upperBound < oid {
        upperBound := oid;
        needsResizing := true;
      }
      if needsResizing {
        var newCacheSize: Oid := SlotsFor(upperBound - lowerBound + 1);
        var diff := if oldLowerBound > lowerBound then oldLowerBound - lowerBound else 0;
        cache := CopyTo(diff, newCacheSize);
      }
      cache[oid - lowerBound] := Some(value);
    }
  }

  // ---------------------------------------------------------------------------------------------
  // The cache and a plain map
  // ---------------------------------------------------------------------------------------------

  ghost predicate Agrees<V>(v: View<V>, m: map<Oid, V>)
    requires Valid(v)
  {
    forall oid: Oid :: Lookup(v, oid) == if oid in m then Some(m[oid]) else None
  }

  /** Nothing is left above the upper bound, and a lower bound of 0 on a non-empty cache is a value for OID 0. */
  ghost predicate Tidy<V>(v: View<V>)
    requires Valid(v)
  {
    && (forall i :: v.upper - v.lower < i < |v.cells| ==> v.cells[i] == None)
    && (v.lower == 0 && v.cells != [] ==> v.cells[0].Some?)
  }

  /** The slot of an OID other than the one that is set: where the old slot went, if there was one. */
  lemma PutElsewhere<V>(v: View<V>, oid: Oid, value: V, o: Oid)
    requires Valid(v) && o != oid && LowerWith(v, oid) <= o <= UpperWith(v, oid)
    ensures var i := o - LowerWith(v, oid);
            Lookup(Put(v, oid, value), o) ==
            if !Resizes(v, oid) then v.cells[i]
            else if Shift(v, oid) <= i < Shift(v, oid) + |v.cells| then v.cells[i - Shift(v, oid)]
            else None
  {
    hide SlotsFor;
  }

  lemma PutLooksUp<V>(v: View<V>, oid: Oid, value: V, o: Oid)
    requires Valid(v) && Tidy(v) && (oid == 0 || Lookup(v, 0) == None)
    ensures Lookup(Put(v, oid, value), o) == if o == oid then Some(value) else Lookup(v, o)
  {
    hide SlotsFor, Copied;
    if o != oid && LowerWith(v, oid) <= o <= UpperWith(v, oid) {
      PutElsewhere(v, oid, value, o);
      hide Put;
    }
  }

  /** Setting an OID other than 0 while 0 is present loses 0; every other call does what a map does. */
  lemma PutAgrees<V>(v: View<V>, m: map<Oid, V>, oid: Oid, value: V)
    requires Valid(v) && Tidy(v) && Agrees(v, m)
    ensures Agrees(Put(v, oid, value), m[oid := value]) <==> oid == 0 || 0 !in m
    ensures oid == 0 || 0 !in m ==> Tidy(Put(v, oid, value))
  {
    var v' := Put(v, oid, value);
    assert Lookup(v, 0).Some? <==> 0 in m;
    if oid != 0 && 0 in m {
      assert Lookup(v', 0) == None;
      assert m[oid := value][0] == m[0];
    } else {
      forall o: Oid ensures Lookup(v', o) == if o in m[oid := value] then Some(m[oid := value][o]) else None {
        PutLooksUp(v, oid, value, o);
        assert Lookup(v, o) == if o in m then Some(m[o]) else None;
      }
    }
  }

  function Run<V>(sets: seq<(Oid, V)>): (v: View<V>)
    ensures Valid(v)
  {
    if sets == [] then Empty()
    else
      var n := |sets| - 1;
      Put(Run(sets[..n]), sets[n].0, sets[n].1)
  }

  function MapOf<V>(sets: seq<(Oid, V)>): map<Oid, V> {
    if sets == [] then map[]
    else
      var n := |sets| - 1;
      MapOf(sets[..n])[sets[n].0 := sets[n].1]
  }

  lemma {:induction false} MapKeys<V>(sets: seq<(Oid, V)>, oid: Oid)
    ensures oid in MapOf(sets) <==> exists i :: 0 <= i < |sets| && sets[i].0 == oid
  {
    if sets != [] {
      var n := |sets| - 1;
      MapKeys(sets[..n], oid);
      if oid in MapOf(sets[..n]) {
        var i :| 0 <= i < n && sets[..n][i].0 == oid;
        assert sets[i].0 == oid;
      }
      if i :| 0 <= i < n && sets[i].0 == oid {
        assert sets[..n][i].0 == oid;
      }
    }
  }

  /** No OID other than 0 is set after OID 0. */
  ghost predicate ZeroIsLast<V>(sets: seq<(Oid, V)>) {
    forall i, j :: 0 <= i < j < |sets| && sets[i].0 == 0 ==> sets[j].0 == 0
  }

  lemma {:induction false} RunAgrees<V>(sets: seq<(Oid, V)>)
    requires ZeroIsLast(sets)
    ensures Tidy(Run(sets)) && Agrees(Run(sets), MapOf(sets))
  {
    if sets != [] {
      var n := |sets| - 1;
      assert ZeroIsLast(sets[..n]) by {
        forall i, j | 0 <= i < j < n && sets[..n][i].0 == 0 ensures sets[..n][j].0 == 0 {
          assert sets[i].0 == 0;
        }
      }
      RunAgrees(sets[..n]);
      MapKeys(sets[..n], 0);
      PutAgrees(Run(sets[..n]), MapOf(sets[..n]), sets[n].0, sets[n].1);
    }
  }

  /** The OIDs lie close enough together. */
  ghost predicate Close<V>(sets: seq<(Oid, V)>) {
    forall i, j :: 0 <= i < |sets| && 0 <= j < |sets| ==> sets[j].0 - sets[i].0 < MAX_SPAN
  }

  /** The bounds are OIDs that were set. */
  ghost predicate Bounded<V>(v: View<V>, sets: seq<(Oid, V)>) {
    sets != [] ==>
      && (exists i :: 0 <= i < |sets| && v.lower == sets[i].0)
      && (exists j :: 0 <= j < |sets| && v.upper == sets[j].0)
  }

  lemma {:induction false} RunBounded<V>(sets: seq<(Oid, V)>)
    ensures Bounded(Run(sets), sets)
  {
    if sets != [] {
      var n := |sets| - 1;
      RunBounded(sets[..n]);
      var v := Run(sets[..n]);
      assert sets[n].0 == sets[n].0;
      if n > 0 {
        var i :| 0 <= i < n && v.lower == sets[..n][i].0;
        var j :| 0 <= j < n && v.upper == sets[..n][j].0;
        assert v.lower == sets[i].0 && v.upper == sets[j].0;
      }
    }
  }

  /** Every call with a close OID meets what `Set` demands. */
  lemma SpanIsClose<V>(sets: seq<(Oid, V)>, k: nat)
    requires Close(sets) && k < |sets|
    ensures SpanWith(Run(sets[..k]), sets[k].0) <= MAX_SPAN
  {
    var past := sets[..k];
    RunBounded(past);
    var v := Run(past);
    assert sets[k].0 - sets[k].0 < MAX_SPAN;
    if k > 0 {
      var i :| 0 <= i < k && v.lower == past[i].0;
      var j :| 0 <= j < k && v.upper == past[j].0;
      assert v.lower == sets[i].0 && v.upper == sets[j].0;
    }
  }

  /** For OIDs within the span every call meets what `Set` demands, and after every call of the sequence the cache
      answers as a plain map, for every OID, if and only if no call sets another OID after OID 0. */
  lemma {:induction false} AgreesThroughout<V>(sets: seq<(Oid, V)>)
    requires Close(sets)
    ensures forall k :: 0 <= k < |sets| ==> SpanWith(Run(sets[..k]), sets[k].0) <= MAX_SPAN
    ensures (forall k :: 0 <= k <= |sets| ==> Agrees(Run(sets[..k]), MapOf(sets[..k]))) <==> ZeroIsLast(sets)
  {
    forall k | 0 <= k < |sets| ensures SpanWith(Run(sets[..k]), sets[k].0) <= MAX_SPAN {
      SpanIsClose(sets, k);
    }
    if ZeroIsLast(sets) {
      forall k | 0 <= k <= |sets| ensures Agrees(Run(sets[..k]), MapOf(sets[..k])) {
        assert ZeroIsLast(sets[..k]);
        RunAgrees(sets[..k]);
      }
    } else {
      FirstDisagreement(sets);
    }
  }

  lemma {:induction false} FirstDisagreement<V>(sets: seq<(Oid, V)>)
    requires !ZeroIsLast(sets)
    ensures exists k :: 0 <= k <= |sets| && !Agrees(Run(sets[..k]), MapOf(sets[..k]))
  {
    hide Agrees, Run, MapOf;
    var n := |sets| - 1;
    var past := sets[..n];
    if ZeroIsLast(past) {
      LastDisagrees(sets);
      assert sets[..n + 1] == sets;
    } else {
      FirstDisagreement(past);
      var k :| 0 <= k <= |past| && !Agrees(Run(past[..k]), MapOf(past[..k]));
      assert past[..k] == sets[..k];
    }
  }

  lemma LastDisagrees<V>(sets: seq<(Oid, V)>)
    requires sets != [] && !ZeroIsLast(sets) && ZeroIsLast(sets[..|sets| - 1])
    ensures !Agrees(Run(sets), MapOf(sets))
  {
    hide Put, Agrees, Tidy, Valid;
    var n := |sets| - 1;
    var past := sets[..n];
    RunAgrees(past);
    MapKeys(past, 0);
    var i, j :| 0 <= i < j < |sets| && sets[i].0 == 0 && sets[j].0 != 0;
    assert past[i].0 == 0;
    assert forall l :: 0 <= l < n ==> past[l] == sets[l];
    PutAgrees(Run(past), MapOf(past), sets[n].0, sets[n].1);
  }

  /** For OIDs from 1 on within the span, the cache is the plain map after every call. */
  lemma CacheIsMap<V>(sets: seq<(Oid, V)>, k: nat)
    requires Close(sets) && (forall i :: 0 <= i < |sets| ==> sets[i].0 >= 1) && k <= |sets|
    ensures k < |sets| ==> SpanWith(Run(sets[..k]), sets[k].0) <= MAX_SPAN
    ensures Agrees(Run(sets[..k]), MapOf(sets[..k]))
  {
    hide Agrees, Run, MapOf;
    assert ZeroIsLast(sets);
    AgreesThroughout(sets);
    if k < |sets| {
      SpanIsClose(sets, k);
    }
  }
}
