/** The conventional optional value, standing for a Java reference that may be null. */
module Optional {
  datatype Option<T> = None | Some(value: T)
}

/**
  Member records (a StructureData with its StructureMembers) as ordered lists of
  name/value pairs, and the composite record that layers several records so that
  the member found first under a name is the one a reader sees.
 */
module Structures {
  import opened Optional

  /** A scalar member value. Doubles are carried as reals and never computed with;
      a string member carries its declared maximum length. */
  datatype Value = Int(i: int) | Double(d: real) | Chars(s: string, maxLen: int)

  datatype Member = Member(name: string, value: Value)

  type Record = seq<Member>

  /** The names a record's members carry. */
  function NameSet(r: Record): set<string>
  {
    if r == [] then {} else {r[0].name} + NameSet(r[1..])
  }

  lemma {:induction false} NameSetAppend(a: Record, b: Record)
    ensures NameSet(a + b) == NameSet(a) + NameSet(b)
  {
    if a != [] {
      assert (a + b)[0] == a[0] && (a + b)[1..] == a[1..] + b;
      NameSetAppend(a[1..], b);
    } else {
      assert a + b == b;
    }
  }

  lemma {:induction false} NameSetHas(r: Record, i: nat)
    requires i < |r|
    ensures r[i].name in NameSet(r)
  {
    if i > 0 {
      NameSetHas(r[1..], i - 1);
    }
  }

  lemma {:induction false} NameSetFrom(r: Record, name: string)
    requires name in NameSet(r)
    ensures exists i :: 0 <= i < |r| && r[i].name == name
  {
    if r[0].name != name {
      NameSetFrom(r[1..], name);
      var i :| 0 <= i < |r[1..]| && r[1..][i].name == name;
      assert r[i + 1].name == name;
    }
  }

  predicate DistinctNames(r: Record)
  {
    forall i, j :: 0 <= i < j < |r| ==> r[i].name != r[j].name
  }

  /** The value of the first member called `name`, as a lookup by name finds it. */
  function Lookup(r: Record, name: string): (v: Option<Value>)
    ensures v.Some? <==> name in NameSet(r)
    ensures v.Some? ==> Member(name, v.value) in r
  {
    if r == [] then None
    else if r[0].name == name then Some(r[0].value)
    else Lookup(r[1..], name)
  }

  /** Appends to `acc` every member of `rest` whose name `acc` does not have yet,
      in the order of `rest`: the member layering of a composite record. */
  function Merge(acc: Record, rest: Record): (r: Record)
    ensures |acc| <= |r| && r[..|acc|] == acc
    ensures NameSet(r) == NameSet(acc) + NameSet(rest)
    ensures DistinctNames(acc) ==> DistinctNames(r)
    ensures forall m :: m in r ==> m in acc || m in rest
    decreases |rest|
  {
    if rest == [] then acc
    else if rest[0].name in NameSet(acc) then Merge(acc, rest[1..])
    else
      var acc' := acc + [rest[0]];
      NameSetAppend(acc, [rest[0]]);
      assert DistinctNames(acc) ==> DistinctNames(acc') by {
        forall i | 0 <= i < |acc| ensures acc[i].name != rest[0].name {
          NameSetHas(acc, i);
        }
      }
      assert acc'[..|acc|] == acc;
      var r := Merge(acc', rest[1..]);
      assert r[..|acc|] == r[..|acc'|][..|acc|];
      r
  }

  /** The composite of a primary and a secondary record: the primary's members
      first, then the secondary's members whose names the primary lacks. */
  function Composite(primary: Record, secondary: Record): (r: Record)
    ensures DistinctNames(r)
    ensures NameSet(r) == NameSet(primary) + NameSet(secondary)
    ensures forall m :: m in r ==> m in primary || m in secondary
  {
    Merge(Merge([], primary), secondary)
  }

  /** A composite record as created from its two layers; a reader sees the
      members of Composite(primary, secondary). */
  datatype CompositeData = CompositeData(primary: Record, secondary: Record)

  lemma {:induction false} LookupAppend(r: Record, m: Member, name: string)
    ensures Lookup(r + [m], name) ==
      if name in NameSet(r) then Lookup(r, name)
      else if m.name == name then Some(m.value)
      else None
  {
    if r != [] {
      assert (r + [m])[1..] == r[1..] + [m];
      LookupAppend(r[1..], m, name);
    }
  }

  /** Looking a name up in merged members finds the accumulated member when
      there is one, and otherwise the first member of `rest` with that name. */
  lemma {:induction false} MergeLookup(acc: Record, rest: Record, name: string)
    ensures Lookup(Merge(acc, rest), name) ==
      if name in NameSet(acc) then Lookup(acc, name) else Lookup(rest, name)
    decreases |rest|
  {
    if rest != [] {
      if rest[0].name in NameSet(acc) {
        MergeLookup(acc, rest[1..], name);
      } else {
        MergeLookup(acc + [rest[0]], rest[1..], name);
        LookupAppend(acc, rest[0], name);
        NameSetAppend(acc, [rest[0]]);
      }
    }
  }

  /** Precedence: a name the primary record has is read from the primary record;
      any other name is read from the secondary record. */
  lemma CompositeLookup(primary: Record, secondary: Record, name: string)
    ensures Lookup(Composite(primary, secondary), name) ==
      if name in NameSet(primary) then Lookup(primary, name) else Lookup(secondary, name)
  {
    MergeLookup([], primary, name);
    MergeLookup(Merge([], primary), secondary, name);
  }

  /** Members with distinct names are merged unchanged and in order. */
  lemma {:induction false} MergeDistinct(acc: Record, rest: Record)
    requires DistinctNames(acc + rest)
    ensures Merge(acc, rest) == acc + rest
    decreases |rest|
  {
    if rest != [] {
      assert rest[0] == (acc + rest)[|acc|];
      assert rest[0].name !in NameSet(acc) by {
        forall i | 0 <= i < |acc| ensures acc[i].name != rest[0].name {
          assert acc[i] == (acc + rest)[i];
        }
        if rest[0].name in NameSet(acc) {
          NameSetFrom(acc, rest[0].name);
        }
      }
      assert (acc + [rest[0]]) + rest[1..] == acc + rest;
      MergeDistinct(acc + [rest[0]], rest[1..]);
    }
  }

  /** A primary record with distinct names opens the composite, unchanged and in
      its own order. */
  lemma CompositePrefix(primary: Record, secondary: Record)
    requires DistinctNames(primary)
    ensures |primary| <= |Composite(primary, secondary)|
    ensures Composite(primary, secondary)[..|primary|] == primary
  {
    assert [] + primary == primary;
    MergeDistinct([], primary);
  }

  /** A member with distinct names yields its value on lookup. */
  lemma {:induction false} LookupDistinct(r: Record, m: Member)
    requires DistinctNames(r) && m in r
    ensures Lookup(r, m.name) == Some(m.value)
  {
    if r[0] != m {
      assert r[0].name != m.name by {
        var k :| 0 < k < |r| && r[k] == m;
      }
      assert DistinctNames(r[1..]) by {
        forall i, j | 0 <= i < j < |r| - 1 ensures r[1..][i].name != r[1..][j].name {
          assert r[1..][i] == r[i + 1] && r[1..][j] == r[j + 1];
        }
      }
      LookupDistinct(r[1..], m);
    }
  }

  /** Example: composing {time=5} with {time=9, x=1} gives {time=5, x=1}. */
  lemma PrecedenceExample()
    ensures Composite([Member("time", Double(5.0))], [Member("time", Double(9.0)), Member("x", Int(1))])
         == [Member("time", Double(5.0)), Member("x", Int(1))]
  {
    var p := [Member("time", Double(5.0))];
    var s := [Member("time", Double(9.0)), Member("x", Int(1))];
    assert Merge([], p) == p by { MergeDistinct([], p); }
    assert NameSet(p) == {"time"};
    assert "x" != "time";
    assert Merge(p, s) == Merge(p, s[1..]);
    assert Merge(p, s[1..]) == p + [s[1]] by { MergeDistinct(p, s[1..]); }
  }
}
