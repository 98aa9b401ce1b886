/** The order in which the diff engine visits sheets: the names of the first
    workbook and then those of the second, each kept at its first occurrence
    (what iterating a JavaScript `Set` built from both name lists yields). */
module SheetOrder {

  predicate Distinct(s: seq<string>)
  {
    forall i, j :: 0 <= i < j < |s| ==> s[i] != s[j]
  }

  /** `s` with every element after its first occurrence dropped. */
  function Dedup(s: seq<string>): (d: seq<string>)
    ensures Distinct(d)
    ensures forall x :: x in d <==> x in s
  {
    if s == [] then []
    else
      var init := Dedup(s[..|s| - 1]);
      if s[|s| - 1] in init then init else init + [s[|s| - 1]]
  }

  /** The elements of `s` that do not occur in `seen`, in order. */
  function Without(s: seq<string>, seen: seq<string>): (r: seq<string>)
    ensures forall x :: x in r <==> x in s && x !in seen
  {
    if s == [] then []
    else
      var init := Without(s[..|s| - 1], seen);
      if s[|s| - 1] in seen then init else init + [s[|s| - 1]]
  }

  /** The sheet-iteration order of a comparison. */
  function UnionOrder(names1: seq<string>, names2: seq<string>): seq<string>
  {
    Dedup(names1 + names2)
  }

  /** Deduplicating a list that has no repeats changes nothing. */
  lemma {:induction false} DedupOfDistinct(s: seq<string>)
    requires Distinct(s)
    ensures Dedup(s) == s
  {
    if s != [] {
      var init := s[..|s| - 1];
      assert Distinct(init);
      DedupOfDistinct(init);
      assert s[|s| - 1] !in init;
      assert init + [s[|s| - 1]] == s;
    }
  }

  /** Deduplicating one more element appends it unless already seen. */
  lemma DedupSnoc(s: seq<string>, x: string)
    ensures Dedup(s + [x]) == Dedup(s) + (if x in s then [] else [x])
  {
    assert (s + [x])[..|s + [x]| - 1] == s;
  }

  lemma WithoutSnoc(s: seq<string>, x: string, seen: seq<string>)
    ensures Without(s + [x], seen) == Without(s, seen) + (if x in seen then [] else [x])
  {
    assert (s + [x])[..|s + [x]| - 1] == s;
  }

  /** Deduplicating `a + b` keeps the deduplicated `a` and then the new names
      of `b` in their order. */
  lemma {:induction false} DedupAppend(a: seq<string>, b: seq<string>)
    ensures Dedup(a + b) == Dedup(a) + Dedup(Without(b, a))
    decreases |b|
  {
    if b == [] {
      assert a + b == a;
    } else {
      var b', x := b[..|b| - 1], b[|b| - 1];
      var w := Without(b', a);
      assert b == b' + [x];
      assert a + b == (a + b') + [x];
      DedupAppend(a, b');
      DedupSnoc(a + b', x);
      WithoutSnoc(b', x, a);
      if x !in a {
        DedupSnoc(w, x);
        assert x in w <==> x in a + b';
      }
    }
  }

  /** The visiting order: the first workbook's names as they come (they are
      distinct), then each name of the second workbook not seen before. */
  lemma UnionOrderShape(names1: seq<string>, names2: seq<string>)
    requires Distinct(names1)
    ensures UnionOrder(names1, names2) == names1 + Dedup(Without(names2, names1))
    ensures Distinct(UnionOrder(names1, names2))
    ensures forall x :: x in UnionOrder(names1, names2) <==> x in names1 || x in names2
  {
    DedupAppend(names1, names2);
    DedupOfDistinct(names1);
  }

  /** `new Set(names)` iterated in insertion order. */
  method InsertionOrdered(names: seq<string>) returns (order: seq<string>)
    ensures order == Dedup(names)
  {
    order := [];
    var seen: set<string> := {};
    for i := 0 to |names|
      invariant order == Dedup(names[..i])
      invariant forall x :: x in seen <==> x in order
    {
      assert names[..i + 1][..i] == names[..i];
      if names[i] !in seen {
        order := order + [names[i]];
        seen := seen + {names[i]};
      }
    }
    assert names[..|names|] == names;
  }
}
