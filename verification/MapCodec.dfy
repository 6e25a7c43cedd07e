/** Maps are written entry by entry in whatever order the iteration picks, and read back by filling a map. */
module MapCodec {
  import opened Wrappers
  import opened Bytes
  import opened Buffers

  /** `order` is an iteration order of the keys. */
  ghost predicate Enumerates(order: seq<Bytestring>, keys: set<Bytestring>) {
    && (forall k :: k in keys <==> k in order)
    && (forall i, j :: 0 <= i < j < |order| ==> order[i] != order[j])
  }

  lemma {:induction false} EnumerationSize(order: seq<Bytestring>, keys: set<Bytestring>)
    requires Enumerates(order, keys)
    ensures |order| == |keys|
  {
    if order != [] {
      var n := |order| - 1;
      var fewer := keys - {order[n]};
      forall k ensures k in fewer <==> k in order[..n] {
        if k in order[..n] {
          var i :| 0 <= i < n && order[..n][i] == k;
          assert order[i] == k;
        }
      }
      EnumerationSize(order[..n], fewer);
      assert keys == fewer + {order[n]};
    } else {
      assert keys == {};
    }
  }

  /** What the first writes, then what the second writes, unless one of them fails. */
  function Then(first: Result<Bytestring>, second: Result<Bytestring>): Result<Bytestring> {
    if first.IsFailure() then first else if second.IsFailure() then second else Ok(first.value + second.value)
  }

  lemma WroteThen(first: Result<Bytestring>, second: Result<Bytestring>, r: Result<()>,
                  before: Bytestring, middle: Bytestring, after: Bytestring)
    requires Wrote(first, Ok(()), before, middle) && Wrote(second, r, middle, after)
    ensures Wrote(Then(first, second), r, before, after)
  {
    if r.Ok? {
      Regroup(before, first.value, second.value);
    }
  }

  function Entries(order: seq<Bytestring>, encode: Bytestring -> Result<Bytestring>): Result<Bytestring> {
    if order == [] then Ok([])
    else
      var n := |order| - 1;
      Then(Entries(order[..n], encode), encode(order[n]))
  }

  lemma {:induction false} EntriesInTwo(order: seq<Bytestring>, k: nat, encode: Bytestring -> Result<Bytestring>)
    requires k <= |order| && forall i :: 0 <= i < |order| ==> encode(order[i]).Ok?
    ensures Entries(order, encode).Ok? && Entries(order[..k], encode).Ok? && Entries(order[k..], encode).Ok?
    ensures Entries(order, encode).value == Entries(order[..k], encode).value + Entries(order[k..], encode).value
  {
    if k == |order| {
      assert order[..k] == order && order[k..] == [];
      if order != [] {
        EntriesInTwo(order[..k - 1], k - 1, encode);
        assert order[..k - 1][..k - 1] == order[..k - 1];
      }
    } else {
      var n := |order| - 1;
      EntriesInTwo(order[..n], k, encode);
      assert order[..n][..k] == order[..k] && order[..n][k..] == order[k..][..n - k];
      Regroup(Entries(order[..k], encode).value, Entries(order[..n][k..], encode).value, encode(order[n]).value);
    }
  }

  lemma EntriesFirst(order: seq<Bytestring>, encode: Bytestring -> Result<Bytestring>)
    requires order != [] && forall i :: 0 <= i < |order| ==> encode(order[i]).Ok?
    ensures Entries(order, encode).Ok? && Entries(order[1..], encode).Ok?
    ensures Entries(order, encode).value == encode(order[0]).value + Entries(order[1..], encode).value
  {
    EntriesInTwo(order, 1, encode);
    var first := [order[0]];
    assert order[..1] == first && first[..0] == [];
    assert Entries(first, encode) == Then(Entries([], encode), encode(order[0]));
    assert [] + encode(order[0]).value == encode(order[0]).value;
  }

  lemma OneEntry(key: Bytestring, encode: Bytestring -> Result<Bytestring>)
    requires encode(key).Ok?
    ensures Entries([key], encode) == encode(key)
  {
    EntriesFirst([key], encode);
    assert [key][1..] == [] && [key][0] == key;
    assert encode(key).value + [] == encode(key).value;
  }

  /** Once an entry fails, so does every longer run of entries, in the same way. */
  lemma {:induction false} FailureStays(order: seq<Bytestring>, n: nat, encode: Bytestring -> Result<Bytestring>)
    requires n <= |order| && Entries(order[..n], encode).IsFailure()
    ensures Entries(order, encode) == Entries(order[..n], encode)
  {
    if n < |order| {
      assert order[..|order| - 1][..n] == order[..n];
      FailureStays(order[..|order| - 1], n, encode);
    } else {
      assert order[..n] == order;
    }
  }

  lemma EnumerateOne(order: seq<Bytestring>, done: set<Bytestring>, key: Bytestring)
    requires Enumerates(order, done) && key !in done
    ensures Enumerates(order + [key], done + {key})
  {
    assert key !in order;
  }

  /** An iteration that stopped early, carried on in any way. */
  lemma {:induction false} Complete(order: seq<Bytestring>, done: set<Bytestring>, todo: set<Bytestring>)
    returns (full: seq<Bytestring>)
    requires Enumerates(order, done) && done !! todo
    ensures order <= full && Enumerates(full, done + todo)
    decreases |todo|
  {
    hide Enumerates;
    if todo == {} {
      full := order;
      assert done + todo == done;
    } else {
      var key :| key in todo;
      EnumerateOne(order, done, key);
      full := Complete(order + [key], done + {key}, todo - {key});
      assert done + {key} + (todo - {key}) == done + todo;
    }
  }

  /** Reads `n` entries into the map. */
  function Filled<V>(n: nat, m: map<Bytestring, V>, buffer: Bytestring,
                     decode: Bytestring -> Result<(Bytestring, V, Bytestring)>):
    Result<(map<Bytestring, V>, Bytestring)>
  {
    if n == 0 then Ok((m, buffer))
    else
      var (key, value, rest) :- decode(buffer);
      Filled(n - 1, m[key := value], rest, decode)
  }

  lemma {:induction false} FilledInTwo<V>(
      n: nat, more: nat, m: map<Bytestring, V>, buffer: Bytestring,
      decode: Bytestring -> Result<(Bytestring, V, Bytestring)>)
    requires Filled(n, m, buffer, decode).Ok?
    ensures var (m', rest) := Filled(n, m, buffer, decode).value;
            Filled(n + more, m, buffer, decode) == Filled(more, m', rest, decode)
  {
    if n > 0 {
      var (key, value, rest) := decode(buffer).value;
      FilledInTwo(n - 1, more, m[key := value], rest, decode);
    }
  }

  /** In front of any bytes, decoding undoes the encoding of this entry. */
  ghost predicate Inverts<V>(
      encode: Bytestring -> Result<Bytestring>, decode: Bytestring -> Result<(Bytestring, V, Bytestring)>,
      key: Bytestring, value: V)
  {
    encode(key).Ok? && forall rest: Bytestring :: decode(encode(key).value + rest) == Ok((key, value, rest))
  }

  function Inserted<V>(base: map<Bytestring, V>, order: seq<Bytestring>, m: map<Bytestring, V>): map<Bytestring, V>
    requires forall i :: 0 <= i < |order| ==> order[i] in m
  {
    if order == [] then base
    else
      var n := |order| - 1;
      Inserted(base, order[..n], m)[order[n] := m[order[n]]]
  }

  lemma {:induction false} InsertedLookup<V>(
      base: map<Bytestring, V>, order: seq<Bytestring>, m: map<Bytestring, V>, key: Bytestring)
    requires forall i :: 0 <= i < |order| ==> order[i] in m
    ensures key in Inserted(base, order, m) <==> key in base || key in order
    ensures key in Inserted(base, order, m) ==>
              Inserted(base, order, m)[key] == if key in order then m[key] else base[key]
  {
    if order != [] {
      var n := |order| - 1;
      InsertedLookup(base, order[..n], m, key);
      assert order == order[..n] + [order[n]];
    }
  }

  lemma InsertedAll<V>(base: map<Bytestring, V>, order: seq<Bytestring>, m: map<Bytestring, V>)
    requires forall k :: k in m <==> k in order
    ensures Inserted(base, order, m) == base + m
  {
    forall key
      ensures key in Inserted(base, order, m) <==> key in base + m
      ensures key in base + m ==> Inserted(base, order, m)[key] == (base + m)[key]
    {
      InsertedLookup(base, order, m, key);
    }
  }

  /** One more entry, once the entries before it have been read. */
  lemma FilledWithLast<V>(
      n: nat, base: map<Bytestring, V>, m: map<Bytestring, V>, bytes: Bytestring, key: Bytestring, value: V,
      rest: Bytestring, encode: Bytestring -> Result<Bytestring>,
      decode: Bytestring -> Result<(Bytestring, V, Bytestring)>)
    requires Inverts(encode, decode, key, value)
    requires Filled(n, base, bytes + (encode(key).value + rest), decode) == Ok((m, encode(key).value + rest))
    ensures Filled(n + 1, base, bytes + encode(key).value + rest, decode) == Ok((m[key := value], rest))
  {
    assert bytes + encode(key).value + rest == bytes + (encode(key).value + rest);
    FilledInTwo(n, 1, base, bytes + (encode(key).value + rest), decode);
    assert Filled(0, m[key := value], rest, decode) == Ok((m[key := value], rest));
  }

  lemma {:induction false} FilledFromEntries<V>(
      order: seq<Bytestring>, m: map<Bytestring, V>, base: map<Bytestring, V>, rest: Bytestring,
      encode: Bytestring -> Result<Bytestring>, decode: Bytestring -> Result<(Bytestring, V, Bytestring)>)
    requires forall i :: 0 <= i < |order| ==> order[i] in m && Inverts(encode, decode, order[i], m[order[i]])
    ensures Entries(order, encode).Ok?
    ensures Filled(|order|, base, Entries(order, encode).value + rest, decode) == Ok((Inserted(base, order, m), rest))
  {
    if order == [] {
      assert Entries(order, encode).value + rest == rest;
    } else {
      var n := |order| - 1;
      var past := order[..n];
      var key := order[n];
      assert Inverts(encode, decode, key, m[key]);
      FilledFromEntries(past, m, base, encode(key).value + rest, encode, decode);
      FilledWithLast(n, base, Inserted(base, past, m), Entries(past, encode).value, key, m[key], rest, encode, decode);
    }
  }

  /** Whatever the order in which the entries of a map were written, reading them back into an empty map gives the
      map, provided every single entry reads back. */
  lemma MapRoundTrip<V>(
      order: seq<Bytestring>, m: map<Bytestring, V>, base: map<Bytestring, V>, rest: Bytestring,
      encode: Bytestring -> Result<Bytestring>, decode: Bytestring -> Result<(Bytestring, V, Bytestring)>)
    requires Enumerates(order, m.Keys)
    requires forall k :: k in m ==> Inverts(encode, decode, k, m[k])
    ensures |order| == |m| && Entries(order, encode).Ok?
    ensures Filled(|m|, base, Entries(order, encode).value + rest, decode) == Ok((base + m, rest))
  {
    hide Inverts, Entries, Filled, Inserted;
    EnumerationSize(order, m.Keys);
    assert |m.Keys| == |m|;
    assert forall k :: k in m <==> k in order by {
      assert forall k :: k in m <==> k in m.Keys;
    }
    forall i | 0 <= i < |order| ensures order[i] in m && Inverts(encode, decode, order[i], m[order[i]]) {
      assert order[i] in order;
    }
    FilledFromEntries(order, m, base, rest, encode, decode);
    InsertedAll(base, order, m);
  }

  /** What holds of every entry the decoder can return holds of every entry of a map it has filled, and there are
      not more of them than were read. */
  lemma {:induction false} FilledAll<V>(
      n: nat, m: map<Bytestring, V>, buffer: Bytestring, decode: Bytestring -> Result<(Bytestring, V, Bytestring)>,
      good: (Bytestring, V) -> bool)
    requires forall k :: k in m ==> good(k, m[k])
    requires forall b: Bytestring :: decode(b).Ok? ==> good(decode(b).value.0, decode(b).value.1)
    requires Filled(n, m, buffer, decode).Ok?
    ensures forall k :: k in Filled(n, m, buffer, decode).value.0 ==> good(k, Filled(n, m, buffer, decode).value.0[k])
    ensures |Filled(n, m, buffer, decode).value.0| <= |m| + n
  {
    if n > 0 {
      var (key, value, rest) := decode(buffer).value;
      assert m[key := value].Keys == m.Keys + {key};
      FilledAll(n - 1, m[key := value], rest, decode, good);
    }
  }

  // ---------------------------------------------------------------------------------------------
  // An iteration over a map that writes its entries
  // ---------------------------------------------------------------------------------------------

  /** The iteration went through `keys - todo` in the order `order`, and wrote these entries. */
  ghost predicate Underway(
      order: seq<Bytestring>, keys: set<Bytestring>, todo: set<Bytestring>, encode: Bytestring -> Result<Bytestring>,
      before: Bytestring, after: Bytestring)
  {
    && todo <= keys
    && Enumerates(order, keys - todo)
    && Wrote(Entries(order, encode), Ok(()), before, after)
  }

  lemma Begin(keys: set<Bytestring>, encode: Bytestring -> Result<Bytestring>, before: Bytestring)
    ensures Underway([], keys, keys, encode, before, before)
  {
    assert before + [] == before;
  }

  lemma OneMore(order: seq<Bytestring>, key: Bytestring, encode: Bytestring -> Result<Bytestring>)
    ensures Entries(order + [key], encode) == Then(Entries(order, encode), encode(key))
  {
    assert (order + [key])[..|order|] == order;
  }

  lemma Advance(
      order: seq<Bytestring>, keys: set<Bytestring>, todo: set<Bytestring>, encode: Bytestring -> Result<Bytestring>,
      before: Bytestring, middle: Bytestring, after: Bytestring, key: Bytestring)
    requires Underway(order, keys, todo, encode, before, middle) && key in todo
    requires Wrote(encode(key), Ok(()), middle, after)
    ensures Underway(order + [key], keys, todo - {key}, encode, before, after)
  {
    hide Enumerates, Entries;
    OneMore(order, key, encode);
    EnumerateOne(order, keys - todo, key);
    assert keys - (todo - {key}) == keys - todo + {key};
    Regroup(before, Entries(order, encode).value, encode(key).value);
  }

  lemma Finish(
      order: seq<Bytestring>, keys: set<Bytestring>, encode: Bytestring -> Result<Bytestring>,
      before: Bytestring, after: Bytestring)
    requires Underway(order, keys, {}, encode, before, after)
    ensures Enumerates(order, keys) && Wrote(Entries(order, encode), Ok(()), before, after)
  {
    assert keys - {} == keys;
  }

  /** An iteration that fails at `key` may be carried on in any way, and still fails. */
  lemma Abandon(
      order: seq<Bytestring>, keys: set<Bytestring>, todo: set<Bytestring>, encode: Bytestring -> Result<Bytestring>,
      before: Bytestring, middle: Bytestring, key: Bytestring)
    returns (full: seq<Bytestring>)
    requires Underway(order, keys, todo, encode, before, middle) && key in todo && encode(key).IsFailure()
    ensures Enumerates(full, keys) && Entries(full, encode) == encode(key)
  {
    hide Enumerates, Entries;
    OneMore(order, key, encode);
    EnumerateOne(order, keys - todo, key);
    full := Complete(order + [key], keys - todo + {key}, todo - {key});
    assert keys - todo + {key} + (todo - {key}) == keys;
    assert full[..|order| + 1] == order + [key];
    FailureStays(full, |order| + 1, encode);
  }
}
