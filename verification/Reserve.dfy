/**
 The index arithmetic of the reviewed one-year question reserve. Every lens is paired with every
 context once, in an order that keeps neighbours apart.
 */
module Reserve {
  import opened Arithmetic

  const Contexts: nat := 73
  const GeneralLenses: nat := 25
  const GeneralCount: nat := 1825
  const GeneralStride: nat := 366
  const IntimacyLenses: nat := 5
  const IntimacyCount: nat := 365
  const IntimacyStride: nat := 74

  datatype Entry = Entry(lens: nat, context: nat)

  /** Entry `index` of a reserve of `lenses * contexts` pairs, walked with a fixed stride. */
  function Pair(index: nat, stride: nat, lenses: nat, contexts: nat): (pair: nat)
    requires lenses > 0 && contexts > 0
    ensures pair < lenses * contexts
  {
    Positive(lenses, contexts);
    (index * stride) % (lenses * contexts)
  }

  function EntryAt(index: nat, stride: nat, lenses: nat, contexts: nat): Entry
    requires lenses > 0 && contexts > 0
  {
    var pair := Pair(index, stride, lenses, contexts);
    Entry(pair / contexts, pair % contexts)
  }

  lemma Positive(a: nat, b: nat)
    requires a > 0 && b > 0
    ensures a * b > 0
  {
  }

  /** A stride of `shift` rows and one column: the column is the index's own, the row moves on. */
  lemma EntryIsRowAndColumn(index: nat, shift: nat, lenses: nat, contexts: nat)
    requires lenses > 0 && contexts > 0
    ensures EntryAt(index, shift * contexts + 1, lenses, contexts)
            == Entry((shift * index + index / contexts) % lenses, index % contexts)
  {
    var a, b := index / contexts, index % contexts;
    var rows := shift * index + a;
    var q, r := rows / lenses, rows % lenses;
    DivMod(index, contexts);
    DivMod(rows, lenses);
    Positive(lenses, contexts);
    Regroup(index, shift, contexts, a, b, lenses, q, r);
    RemainderIs(index * (shift * contexts + 1), q, lenses * contexts, r * contexts + b);
    RemainderIs(r * contexts + b, r, contexts, b);
  }

  lemma Regroup(index: int, shift: int, contexts: int, a: int, b: int, lenses: int, q: int, r: int)
    requires index == a * contexts + b && shift * index + a == q * lenses + r
    requires 0 <= r < lenses && 0 <= b < contexts
    ensures index * (shift * contexts + 1) == q * (lenses * contexts) + (r * contexts + b)
    ensures 0 <= r * contexts + b < lenses * contexts
  {
    calc {
      index * (shift * contexts + 1);
      == { Distribute(index, shift, contexts); }
      shift * index * contexts + (a * contexts + b);
      ==
      (shift * index + a) * contexts + b;
      ==
      (q * lenses + r) * contexts + b;
      == { Associate(q, lenses, r, contexts); }
      q * (lenses * contexts) + (r * contexts + b);
    }
    Below(r, lenses, contexts, b);
  }

  lemma Distribute(index: int, shift: int, contexts: int)
    ensures index * (shift * contexts + 1) == shift * index * contexts + index
  {
  }

  lemma Associate(q: int, lenses: int, r: int, contexts: int)
    ensures (q * lenses + r) * contexts == q * (lenses * contexts) + r * contexts
  {
  }

  lemma Below(r: int, lenses: int, contexts: int, b: int)
    requires 0 <= r < lenses && 0 <= b < contexts
    ensures 0 <= r * contexts + b < lenses * contexts
  {
    var d := lenses - r - 1;
    assert d * contexts >= 0;
    assert lenses * contexts == r * contexts + d * contexts + contexts;
  }

  // ---------- every pair once ----------

  /** The place of an entry, given an inverse of the row stride modulo the number of lenses. */
  function IndexOf(entry: Entry, shift: nat, lenses: nat, contexts: nat, inverse: int): int
    requires lenses > 0
  {
    (((entry.lens - shift * entry.context) * inverse) % lenses) * contexts + entry.context
  }

  ghost predicate Inverse(inverse: int, shift: nat, lenses: nat, contexts: nat, turns: int) {
    inverse * (shift * contexts + 1) == 1 + lenses * turns
  }

  lemma IndexThenEntry(entry: Entry, shift: nat, lenses: nat, contexts: nat, inverse: int, turns: int)
    requires entry.lens < lenses && entry.context < contexts && Inverse(inverse, shift, lenses, contexts, turns)
    ensures 0 <= IndexOf(entry, shift, lenses, contexts, inverse) < lenses * contexts
    ensures EntryAt(IndexOf(entry, shift, lenses, contexts, inverse), shift * contexts + 1, lenses, contexts) == entry
  {
    var (l, b) := (entry.lens, entry.context);
    var whole := (l - shift * b) * inverse;
    var a, m := whole % lenses, whole / lenses;
    DivMod(whole, lenses);
    Below(a, lenses, contexts, b);
    var index := a * contexts + b;
    RemainderIs(index, a, contexts, b);
    EntryIsRowAndColumn(index, shift, lenses, contexts);
    RowOfIndex(a, b, l, shift, contexts, lenses, inverse, turns, m);
    RemainderIs(shift * index + a, (l - shift * b) * turns - m * (shift * contexts + 1), lenses, l);
  }

  lemma RowOfIndex(a: int, b: int, l: int, shift: int, contexts: int, lenses: int, inverse: int, turns: int, m: int)
    requires (l - shift * b) * inverse == m * lenses + a
    requires inverse * (shift * contexts + 1) == 1 + lenses * turns
    ensures shift * (a * contexts + b) + a
            == ((l - shift * b) * turns - m * (shift * contexts + 1)) * lenses + l
  {
    var stride, d := shift * contexts + 1, l - shift * b;
    assert a == d * inverse - m * lenses;
    calc {
      shift * (a * contexts + b) + a;
      == { Rows(shift, a, contexts, b); }
      a * stride + shift * b;
      (d * inverse - m * lenses) * stride + shift * b;
      == { Expand(d, inverse, m, lenses, stride); }
      d * (inverse * stride) - m * stride * lenses + shift * b;
      d * (1 + lenses * turns) - m * stride * lenses + shift * b;
      == { Collect(d, lenses, turns, m * stride); }
      (d * turns - m * stride) * lenses + d + shift * b;
    }
  }

  lemma Rows(shift: int, a: int, contexts: int, b: int)
    ensures shift * (a * contexts + b) + a == a * (shift * contexts + 1) + shift * b
  {
  }

  lemma Expand(d: int, inverse: int, m: int, lenses: int, stride: int)
    ensures (d * inverse - m * lenses) * stride == d * (inverse * stride) - m * stride * lenses
  {
  }

  lemma Collect(d: int, lenses: int, turns: int, e: int)
    ensures d * (1 + lenses * turns) - e * lenses == (d * turns - e) * lenses + d
  {
  }

  lemma RowBelow(index: nat, lenses: nat, contexts: nat)
    requires contexts > 0 && index < lenses * contexts
    ensures index / contexts < lenses
  {
    DivMod(index, contexts);
    var d := index / contexts - lenses;
    assert d * contexts == index / contexts * contexts - lenses * contexts;
    assert d >= 0 ==> d * contexts >= 0;
  }

  lemma EntryThenIndex(index: nat, shift: nat, lenses: nat, contexts: nat, inverse: int, turns: int)
    requires lenses > 0 && contexts > 0 && index < lenses * contexts && Inverse(inverse, shift, lenses, contexts, turns)
    ensures IndexOf(EntryAt(index, shift * contexts + 1, lenses, contexts), shift, lenses, contexts, inverse) == index
  {
    var a, b := index / contexts, index % contexts;
    DivMod(index, contexts);
    RowBelow(index, lenses, contexts);
    EntryIsRowAndColumn(index, shift, lenses, contexts);
    var rows := shift * index + a;
    var l, m := rows % lenses, rows / lenses;
    DivMod(rows, lenses);
    IndexOfRow(a, b, l, shift, contexts, lenses, inverse, turns, m);
    RemainderIs((l - shift * b) * inverse, a * turns - m * inverse, lenses, a);
  }

  lemma IndexOfRow(a: int, b: int, l: int, shift: int, contexts: int, lenses: int, inverse: int, turns: int, m: int)
    requires shift * (a * contexts + b) + a == m * lenses + l
    requires inverse * (shift * contexts + 1) == 1 + lenses * turns
    ensures (l - shift * b) * inverse == (a * turns - m * inverse) * lenses + a
  {
    var stride := shift * contexts + 1;
    Rows(shift, a, contexts, b);
    assert l - shift * b == a * stride - m * lenses;
    calc {
      (a * stride - m * lenses) * inverse;
      == { Expand(a, stride, m, lenses, inverse); }
      a * (stride * inverse) - m * inverse * lenses;
      a * (1 + lenses * turns) - m * inverse * lenses;
      == { Collect(a, lenses, turns, m * inverse); }
      (a * turns - m * inverse) * lenses + a;
    }
  }

  /** Five rows and a column: a bijection of indices and pairs for any number of contexts. */
  lemma GeneralWalkIsABijection(contexts: nat, index: nat, entry: Entry)
    requires contexts > 0
    ensures index < 25 * contexts ==>
              IndexOf(EntryAt(index, 5 * contexts + 1, 25, contexts), 5, 25, contexts, 1 - 5 * contexts) == index
    ensures entry.lens < 25 && entry.context < contexts ==>
              var place := IndexOf(entry, 5, 25, contexts, 1 - 5 * contexts);
              0 <= place < 25 * contexts && EntryAt(place, 5 * contexts + 1, 25, contexts) == entry
  {
    var turns: int := -(contexts * contexts);
    assert Inverse(1 - 5 * contexts, 5, 25, contexts, turns);
    if index < 25 * contexts { EntryThenIndex(index, 5, 25, contexts, 1 - 5 * contexts, turns); }
    if entry.lens < 25 && entry.context < contexts {
      IndexThenEntry(entry, 5, 25, contexts, 1 - 5 * contexts, turns);
    }
  }

  function InverseModFive(stride: nat): int {
    if stride % 5 == 1 then 1 else if stride % 5 == 2 then 3 else if stride % 5 == 3 then 2 else 4
  }

  predicate Collide(i: nat, j: nat, contexts: nat)
    requires contexts > 0
  {
    && i != j && i < 5 * contexts && j < 5 * contexts
    && EntryAt(i, contexts + 1, 5, contexts) == EntryAt(j, contexts + 1, 5, contexts)
  }

  /** One row and a column: injective exactly when five does not divide the stride. */
  lemma IntimacyWalkIsInjectiveUnless(contexts: nat)
    requires contexts > 0
    ensures (exists i: nat, j: nat :: Collide(i, j, contexts)) <==> (contexts + 1) % 5 == 0
  {
    if (contexts + 1) % 5 == 0 {
      EntryIsRowAndColumn(0, 1, 5, contexts);
      EntryIsRowAndColumn(contexts, 1, 5, contexts);
      RemainderIs(contexts, 1, contexts, 0);
      RemainderIs(0, 0, contexts, 0);
      assert Collide(0, contexts, contexts);
    } else {
      forall i: nat, j: nat ensures !Collide(i, j, contexts) {
        if i < 5 * contexts && j < 5 * contexts {
          IntimacyPlaces(i, contexts);
          IntimacyPlaces(j, contexts);
        }
      }
    }
  }

  lemma IntimacyPlaces(index: nat, contexts: nat)
    requires contexts > 0 && (contexts + 1) % 5 != 0 && index < 5 * contexts
    ensures IndexOf(EntryAt(index, contexts + 1, 5, contexts), 1, 5, contexts, InverseModFive(contexts + 1)) == index
  {
    var v := InverseModFive(contexts + 1);
    var turns := (v * (contexts + 1) - 1) / 5;
    assert Inverse(v, 1, 5, contexts, turns);
    EntryThenIndex(index, 1, 5, contexts, v, turns);
  }

  /** Then every pair has its place as well. */
  lemma IntimacyWalkReaches(contexts: nat, entry: Entry)
    requires contexts > 0 && (contexts + 1) % 5 != 0 && entry.lens < 5 && entry.context < contexts
    ensures var place := IndexOf(entry, 1, 5, contexts, InverseModFive(contexts + 1));
            0 <= place < 5 * contexts && EntryAt(place, contexts + 1, 5, contexts) == entry
  {
    var v := InverseModFive(contexts + 1);
    assert Inverse(v, 1, 5, contexts, (v * (contexts + 1) - 1) / 5);
    IndexThenEntry(entry, 1, 5, contexts, v, (v * (contexts + 1) - 1) / 5);
  }

  // ---------- neighbours differ ----------

  lemma WalkIsCyclic(index: nat, stride: nat, lenses: nat, contexts: nat)
    requires lenses > 0 && contexts > 0
    ensures EntryAt(index % (lenses * contexts), stride, lenses, contexts) == EntryAt(index, stride, lenses, contexts)
  {
    var n := lenses * contexts;
    Positive(lenses, contexts);
    var q, y := index / n, index % n;
    DivMod(index, n);
    var r, m := (y * stride) % n, (y * stride) / n;
    DivMod(y * stride, n);
    calc {
      index * stride;
      (q * n + y) * stride;
      == { Associate(q, n, y, stride); Swap(q, n, stride); }
      q * stride * n + y * stride;
      q * stride * n + (m * n + r);
      == { Together(q * stride, m, n, r); }
      (q * stride + m) * n + r;
    }
    RemainderIs(index * stride, q * stride + m, n, r);
  }

  lemma Swap(q: int, n: int, stride: int)
    ensures q * (n * stride) == q * stride * n
  {
  }

  lemma Together(a: int, b: int, n: int, r: int)
    ensures a * n + (b * n + r) == (a + b) * n + r
  {
  }

  /** Any two of five cyclically consecutive entries differ in lens and in context. */
  lemma NeighboursDiffer(contexts: nat, start: nat, i: nat, j: nat)
    requires contexts >= 5 && i < j < 5
    ensures var a := EntryAt((start + i) % (25 * contexts), 5 * contexts + 1, 25, contexts);
            var b := EntryAt((start + j) % (25 * contexts), 5 * contexts + 1, 25, contexts);
            a.lens != b.lens && a.context != b.context
  {
    var x, y := start + i, start + j;
    GeneralEntry(x, contexts);
    GeneralEntry(y, contexts);
    RowsDiffer(x, y, contexts);
  }

  lemma RowsDiffer(x: nat, y: nat, contexts: nat)
    requires contexts >= 5 && x < y < x + 5
    ensures (5 * x + x / contexts) % 25 != (5 * y + y / contexts) % 25
    ensures x % contexts != y % contexts
  {
    NextColumn(x, y - x, contexts);
    var a, b := x / contexts, y / contexts;
    TwentyFive(5 * x + a, 5 * y + b);
  }

  lemma TwentyFive(u: nat, v: nat)
    requires u < v < u + 25
    ensures u % 25 != v % 25
  {
  }

  lemma GeneralEntry(index: nat, contexts: nat)
    requires contexts > 0
    ensures EntryAt(index % (25 * contexts), 5 * contexts + 1, 25, contexts)
            == Entry((5 * index + index / contexts) % 25, index % contexts)
  {
    WalkIsCyclic(index, 5 * contexts + 1, 25, contexts);
    EntryIsRowAndColumn(index, 5, 25, contexts);
  }

  lemma NextColumn(x: nat, d: nat, contexts: nat)
    requires 0 < d < contexts
    ensures (x + d) % contexts != x % contexts
    ensures x / contexts <= (x + d) / contexts <= x / contexts + 1
  {
    var a, b := x / contexts, x % contexts;
    DivMod(x, contexts);
    if b + d < contexts {
      RemainderIs(x + d, a, contexts, b + d);
    } else {
      assert (a + 1) * contexts == a * contexts + contexts;
      RemainderIs(x + d, a + 1, contexts, b + d - contexts);
    }
  }

  // ---------- the reserve as built ----------

  /** Every pair of a lens and a context, each at one index. */
  ghost predicate Complete(entries: seq<Entry>, lenses: nat, contexts: nat) {
    && |entries| == lenses * contexts
    && (forall lens: nat, context: nat :: lens < lenses && context < contexts ==> Entry(lens, context) in entries)
    && (forall i, j :: 0 <= i < j < |entries| ==> entries[i] != entries[j])
  }

  /** Two entries of a cyclic window share neither lens nor context. */
  predicate Apart(entries: seq<Entry>, i: nat, j: nat)
    requires |entries| > 0
  {
    var a, b := entries[i % |entries|], entries[j % |entries|];
    a.lens != b.lens && a.context != b.context
  }

  method GeneralEntries() returns (entries: seq<Entry>)
    ensures Complete(entries, GeneralLenses, Contexts)
    ensures |entries| == GeneralCount && forall i: nat, j: nat :: i < j < i + 5 ==> Apart(entries, i, j)
  {
    entries := [];
    for index := 0 to GeneralCount
      invariant |entries| == index
      invariant forall k :: 0 <= k < index ==> entries[k] == EntryAt(k, GeneralStride, GeneralLenses, Contexts)
    {
      var pair := (index * GeneralStride) % GeneralCount;
      entries := entries + [Entry(pair / Contexts, pair % Contexts)];
    }
    GeneralIsComplete(entries);
  }

  method IntimacyEntries() returns (entries: seq<Entry>)
    ensures Complete(entries, IntimacyLenses, Contexts)
  {
    entries := [];
    for index := 0 to IntimacyCount
      invariant |entries| == index
      invariant forall k :: 0 <= k < index ==> entries[k] == EntryAt(k, IntimacyStride, IntimacyLenses, Contexts)
    {
      var pair := (index * IntimacyStride) % IntimacyCount;
      entries := entries + [Entry(pair / Contexts, pair % Contexts)];
    }
    IntimacyIsComplete(entries);
  }

  lemma GeneralIsComplete(entries: seq<Entry>)
    requires |entries| == GeneralCount
    requires forall k :: 0 <= k < GeneralCount ==> entries[k] == EntryAt(k, GeneralStride, GeneralLenses, Contexts)
    ensures Complete(entries, GeneralLenses, Contexts)
    ensures forall i: nat, j: nat :: i < j < i + 5 ==> Apart(entries, i, j)
  {
    forall lens: nat, context: nat | lens < GeneralLenses && context < Contexts ensures Entry(lens, context) in entries {
      GeneralWalkIsABijection(Contexts, 0, Entry(lens, context));
      var place := IndexOf(Entry(lens, context), 5, 25, Contexts, 1 - 5 * Contexts);
      assert entries[place] == Entry(lens, context);
    }
    forall i, j | 0 <= i < j < |entries| ensures entries[i] != entries[j] {
      GeneralWalkIsABijection(Contexts, i, Entry(0, 0));
      GeneralWalkIsABijection(Contexts, j, Entry(0, 0));
    }
    forall i: nat, j: nat | i < j < i + 5 ensures Apart(entries, i, j) {
      NeighboursDiffer(Contexts, i, 0, j - i);
    }
  }

  lemma IntimacyIsComplete(entries: seq<Entry>)
    requires |entries| == IntimacyCount
    requires forall k :: 0 <= k < IntimacyCount ==> entries[k] == EntryAt(k, IntimacyStride, IntimacyLenses, Contexts)
    ensures Complete(entries, IntimacyLenses, Contexts)
  {
    forall lens: nat, context: nat | lens < IntimacyLenses && context < Contexts ensures Entry(lens, context) in entries {
      IntimacyWalkReaches(Contexts, Entry(lens, context));
      var place := IndexOf(Entry(lens, context), 1, 5, Contexts, InverseModFive(Contexts + 1));
      assert entries[place] == Entry(lens, context);
    }
    forall i, j | 0 <= i < j < |entries| ensures entries[i] != entries[j] {
      IntimacyPlaces(i, Contexts);
      IntimacyPlaces(j, Contexts);
    }
  }
}
