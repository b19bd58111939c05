/** Struct layouts and the codecs derived from them (lib/struct.lua), and the second validator of
    the same layouts (autogen.lua, `struct_facts`). */
module StructLayout {
  datatype Field = Field(name: string, offset: nat, size: nat, signed: bool)
  datatype Layout = Layout(size: nat, fields: seq<Field>)

  /** Items of a `string.pack` format: `x` repeated, `I<size>` or `i<size>`. */
  datatype Item = Pad(n: nat) | Int(size: nat, signed: bool)

  function End(f: Field): nat { f.offset + f.size }

  function Max(a: int, b: int): int { if a > b then a else b }

  /** What `table.sort` by offset may return: any permutation in offset order. */
  ghost predicate IsSort(fields: seq<Field>, sorted: seq<Field>) {
    multiset(sorted) == multiset(fields) && forall i, j | 0 <= i < j < |sorted| :: sorted[i].offset <= sorted[j].offset
  }

  // ---- the derived format ----

  /** The position after the fields: the end of the last one. */
  function Pos(fields: seq<Field>): nat {
    if fields == [] then 0 else End(fields[|fields| - 1])
  }

  /** The fields' items, with padding where the next field starts after the position. */
  function FieldItems(fields: seq<Field>): seq<Item> {
    if fields == [] then []
    else
      var rest, f := fields[..|fields| - 1], fields[|fields| - 1];
      FieldItems(rest) + (if f.offset > Pos(rest) then [Pad(f.offset - Pos(rest))] else []) + [Int(f.size, f.signed)]
  }

  function Format(fields: seq<Field>, total: nat): seq<Item> {
    FieldItems(fields) + if total > Pos(fields) then [Pad(total - Pos(fields))] else []
  }

  function ItemSize(item: Item): nat {
    match item case Pad(n) => n case Int(size, _) => size
  }

  /** `string.packsize`. */
  function PackSize(format: seq<Item>): nat {
    if format == [] then 0 else PackSize(format[..|format| - 1]) + ItemSize(format[|format| - 1])
  }

  /** `build_format`. */
  method BuildFormat(sorted: seq<Field>, total: nat) returns (format: seq<Item>)
    ensures format == Format(sorted, total)
  {
    format := [];
    var pos := 0;
    for i := 0 to |sorted|
      invariant format == FieldItems(sorted[..i]) && pos == Pos(sorted[..i])
    {
      var f := sorted[i];
      assert sorted[..i + 1][..i] == sorted[..i];
      if f.offset > pos { format := format + [Pad(f.offset - pos)]; }
      format := format + [Int(f.size, f.signed)];
      pos := End(f);
    }
    assert sorted[..|sorted|] == sorted;
    if total > pos { format := format + [Pad(total - pos)]; }
  }

  /** `string.pack` knows integers of 1 to 16 bytes and raises on any other size. */
  predicate Packable(fields: seq<Field>) {
    forall i | 0 <= i < |fields| :: 1 <= fields[i].size <= 16
  }

  /** The codec constructor: it raises unless the derived format has the size of the struct. */
  predicate Constructs(sorted: seq<Field>, total: nat) {
    Packable(sorted) && PackSize(Format(sorted, total)) == total
  }

  // ---- overlap ----

  /** How far each field reaches back before the end of the previous one, added up. */
  function Overlap(fields: seq<Field>): nat {
    if fields == [] then 0
    else Overlap(fields[..|fields| - 1]) + Max(0, Pos(fields[..|fields| - 1]) - fields[|fields| - 1].offset)
  }

  lemma PackSizeAppend(a: seq<Item>, item: Item)
    ensures PackSize(a + [item]) == PackSize(a) + ItemSize(item)
  {
    assert (a + [item])[..|a|] == a;
  }

  lemma {:induction false} FieldItemsSize(fields: seq<Field>)
    ensures PackSize(FieldItems(fields)) == Pos(fields) + Overlap(fields)
  {
    if fields == [] {
    } else {
      var rest, f := fields[..|fields| - 1], fields[|fields| - 1];
      FieldItemsSize(rest);
      var padded := FieldItems(rest) + if f.offset > Pos(rest) then [Pad(f.offset - Pos(rest))] else [];
      if f.offset > Pos(rest) {
        PackSizeAppend(FieldItems(rest), Pad(f.offset - Pos(rest)));
      } else {
        assert padded == FieldItems(rest);
      }
      PackSizeAppend(padded, Int(f.size, f.signed));
    }
  }

  /** The derived format exceeds the larger of struct size and last field end by the total overlap. */
  lemma ExcessIsOverlap(fields: seq<Field>, total: nat)
    ensures PackSize(Format(fields, total)) == Max(total, Pos(fields)) + Overlap(fields)
  {
    FieldItemsSize(fields);
    if total > Pos(fields) {
      PackSizeAppend(FieldItems(fields), Pad(total - Pos(fields)));
    } else {
      assert Format(fields, total) == FieldItems(fields);
    }
  }

  // ---- the meaning of a good layout ----

  predicate Apart(a: Field, b: Field) {
    End(a) <= b.offset || End(b) <= a.offset
  }

  /** No two fields share a byte and every field lies within the struct. */
  predicate WellLaid(layout: Layout) {
    && (forall i, j | 0 <= i < j < |layout.fields| :: Apart(layout.fields[i], layout.fields[j]))
    && (forall i | 0 <= i < |layout.fields| :: End(layout.fields[i]) <= layout.size)
  }

  /** In offset order, without overlap, every field starts after all earlier ones end. */
  predicate Ordered(fields: seq<Field>) {
    forall i, j | 0 <= i < j < |fields| :: End(fields[i]) <= fields[j].offset
  }

  lemma {:induction false} NoOverlapIsOrdered(fields: seq<Field>)
    ensures Overlap(fields) == 0 ==> Ordered(fields)
    ensures Overlap(fields) == 0 ==> forall i | 0 <= i < |fields| :: End(fields[i]) <= Pos(fields)
    ensures Ordered(fields) ==> Overlap(fields) == 0
  {
    if fields == [] {
    } else {
      var rest := fields[..|fields| - 1];
      NoOverlapIsOrdered(rest);
      assert forall i | 0 <= i < |rest| :: rest[i] == fields[i];
    }
  }

  lemma SortedApartIsOrdered(fields: seq<Field>)
    requires Packable(fields) && forall i, j | 0 <= i < j < |fields| :: fields[i].offset <= fields[j].offset
    ensures Ordered(fields) <==> forall i, j | 0 <= i < j < |fields| :: Apart(fields[i], fields[j])
  {
  }

  // ---- permutations ----

  /** Two occurrences, as a property of the multiset only. */
  predicate BothIn(m: multiset<Field>, a: Field, b: Field) {
    multiset{a, b} <= m
  }

  lemma TwoPlaces(s: seq<Field>, i: nat, j: nat)
    requires i < j < |s|
    ensures BothIn(multiset(s), s[i], s[j])
  {
    assert s == s[..j] + [s[j]] + s[j + 1..];
    assert multiset(s) == multiset(s[..j]) + multiset{s[j]} + multiset(s[j + 1..]);
    assert s[..j][i] == s[i] && s[i] in multiset(s[..j]);
    assert multiset{s[i], s[j]} == multiset{s[i]} + multiset{s[j]};
  }

  lemma FindTwoPlaces(s: seq<Field>, a: Field, b: Field) returns (i: nat, j: nat)
    requires BothIn(multiset(s), a, b)
    ensures i < j < |s| && ((s[i] == a && s[j] == b) || (s[i] == b && s[j] == a))
  {
    assert a in multiset(s);
    var p: nat :| p < |s| && s[p] == a;
    assert s == s[..p] + [a] + s[p + 1..];
    assert multiset(s) == multiset(s[..p]) + multiset{a} + multiset(s[p + 1..]);
    assert b in multiset(s[..p]) + multiset(s[p + 1..]);
    if b in s[..p] {
      i :| 0 <= i < p && s[i] == b;
      j := p;
    } else {
      assert b in s[p + 1..];
      j :| p < j < |s| && s[j] == b;
      i := p;
    }
  }

  lemma ApartIsSymmetric(s: seq<Field>, t: seq<Field>)
    requires multiset(s) == multiset(t) && forall i, j | 0 <= i < j < |s| :: Apart(s[i], s[j])
    ensures forall i, j | 0 <= i < j < |t| :: Apart(t[i], t[j])
  {
    forall i, j | 0 <= i < j < |t|
      ensures Apart(t[i], t[j])
    {
      TwoPlaces(t, i, j);
      var p, q := FindTwoPlaces(s, t[i], t[j]);
    }
  }

  // ---- both validators ----

  /** The constructor accepts exactly the layouts whose fields have packable sizes, do not overlap
      and fit in the struct, whatever order `table.sort` gives to fields of equal offset. */
  lemma ConstructsIffWellLaid(layout: Layout, sorted: seq<Field>)
    requires IsSort(layout.fields, sorted)
    ensures Constructs(sorted, layout.size) <==> Packable(layout.fields) && WellLaid(layout)
  {
    ExcessIsOverlap(sorted, layout.size);
    PackableSorted(layout.fields, sorted);
    if Packable(sorted) {
      NoOverlapIsOrdered(sorted);
      SortedApartIsOrdered(sorted);
      if Ordered(sorted) { ApartIsSymmetric(sorted, layout.fields); }
      if WellLaid(layout) { ApartIsSymmetric(layout.fields, sorted); }
      EndsSorted(layout, sorted);
    }
  }

  lemma PackableSorted(fields: seq<Field>, sorted: seq<Field>)
    requires multiset(sorted) == multiset(fields)
    ensures Packable(fields) <==> Packable(sorted)
  {
    forall i | 0 <= i < |fields| ensures fields[i] in sorted { assert fields[i] in multiset(sorted); }
    forall i | 0 <= i < |sorted| ensures sorted[i] in fields { assert sorted[i] in multiset(fields); }
  }

  lemma EndsSorted(layout: Layout, sorted: seq<Field>)
    requires multiset(sorted) == multiset(layout.fields)
    ensures (forall i | 0 <= i < |sorted| :: End(sorted[i]) <= layout.size)
            <==> (forall i | 0 <= i < |layout.fields| :: End(layout.fields[i]) <= layout.size)
  {
    var fields := layout.fields;
    forall i | 0 <= i < |fields| ensures fields[i] in sorted { assert fields[i] in multiset(sorted); }
    forall i | 0 <= i < |sorted| ensures sorted[i] in fields { assert sorted[i] in multiset(fields); }
  }

  /** `struct_facts`: walks the sorted fields, raising on one that starts before the position and on
      a struct smaller than the last field end. */
  method StructFacts(layout: Layout, sorted: seq<Field>) returns (ok: bool)
    requires IsSort(layout.fields, sorted)
    requires forall i | 0 <= i < |layout.fields| :: layout.fields[i].size > 0
    ensures ok <==> WellLaid(layout)
  {
    FactsMeans(layout, sorted);
    var pos := 0;
    for i := 0 to |sorted|
      invariant pos == Pos(sorted[..i]) && Overlap(sorted[..i]) == 0
    {
      assert sorted[..i + 1][..i] == sorted[..i];
      if sorted[i].offset < pos {
        OverlapGrows(sorted, i + 1);
        return false;
      }
      pos := End(sorted[i]);
    }
    assert sorted[..|sorted|] == sorted;
    ok := layout.size >= pos;
  }

  lemma {:induction false} OverlapGrows(fields: seq<Field>, n: nat)
    requires n <= |fields|
    ensures Overlap(fields) >= Overlap(fields[..n])
  {
    if n < |fields| {
      OverlapGrows(fields[..|fields| - 1], n);
      assert fields[..|fields| - 1][..n] == fields[..n];
    } else {
      assert fields[..n] == fields;
    }
  }

  lemma FactsMeans(layout: Layout, sorted: seq<Field>)
    requires IsSort(layout.fields, sorted)
    requires forall i | 0 <= i < |layout.fields| :: layout.fields[i].size > 0
    ensures WellLaid(layout) <==> Overlap(sorted) == 0 && Pos(sorted) <= layout.size
  {
    NoOverlapIsOrdered(sorted);
    EndsSorted(layout, sorted);
    forall i | 0 <= i < |sorted|
      ensures sorted[i].size > 0
    {
      assert sorted[i] in multiset(layout.fields);
    }
    if Overlap(sorted) == 0 { ApartIsSymmetric(sorted, layout.fields); }
    if WellLaid(layout) { ApartIsSymmetric(layout.fields, sorted); }
  }

  /** The generator's check and the constructor agree on a layout if and only if every field is at most 16 bytes wide
      or the fields overlap or leave the struct: wider fields pass the check and then raise. */
  lemma VerdictsAgreeIff(layout: Layout, sorted: seq<Field>)
    requires IsSort(layout.fields, sorted)
    requires forall i | 0 <= i < |layout.fields| :: layout.fields[i].size > 0
    ensures (WellLaid(layout) <==> Constructs(sorted, layout.size))
       <==> (WellLaid(layout) ==> forall i | 0 <= i < |layout.fields| :: layout.fields[i].size <= 16)
  {
    hide WellLaid, Constructs;
    ConstructsIffWellLaid(layout, sorted);
  }
}
