/**
 Choosing the five questions of a day: an exhaustive search over a bounded pool, the order in which
 the choice is asked, and the curated fallback that fills shortages.
 */
module QuestionPool {
  import opened Wrappers
  import opened Arithmetic

  /** Client identifiers, numbered in their textual order. */
  type Id = nat

  datatype Kind = Single | Multiple | Weighted | PartnerGuess | FreeText
  datatype Category = Playful | Everyday | Dreams | Memories | Values | Connection | Intimacy
  datatype Depth = Light | Reflective | Deeper
  datatype Role = Themed | Variety

  datatype Candidate = Candidate(
    id: Id, kind: Kind, category: Category, depth: Depth, role: Role,
    intimacy: bool, prompt: string, tags: seq<string>)

  const PoolBound: nat := 14

  // ---------- the search space ----------

  /** A choice of `k` positions from `start` up to `n`, in increasing order. */
  predicate Choice(g: seq<nat>, start: nat, n: nat, k: nat) {
    && |g| == k
    && (forall i :: 0 <= i < k ==> start <= g[i] < n)
    && (forall i, j :: 0 <= i < j < k ==> g[i] < g[j])
  }

  function Prepend(first: nat, choices: seq<seq<nat>>): (r: seq<seq<nat>>)
    ensures |r| == |choices| && forall i :: 0 <= i < |r| ==> r[i] == [first] + choices[i]
  {
    seq(|choices|, i requires 0 <= i < |choices| => [first] + choices[i])
  }

  function Combinations(start: nat, n: nat, k: nat): seq<seq<nat>>
    decreases k, n - start
  {
    if k == 0 then [[]]
    else if start >= n then []
    else Prepend(start, Combinations(start + 1, n, k - 1)) + Combinations(start + 1, n, k)
  }

  lemma {:induction false} CombinationsAreChoices(start: nat, n: nat, k: nat, i: nat)
    requires start <= n && i < |Combinations(start, n, k)|
    ensures Choice(Combinations(start, n, k)[i], start, n, k)
    decreases k, n - start
  {
    if k > 0 {
      var using := Combinations(start + 1, n, k - 1);
      if i < |using| {
        CombinationsAreChoices(start + 1, n, k - 1, i);
      } else {
        CombinationsAreChoices(start + 1, n, k, i - |using|);
      }
    }
  }

  lemma {:induction false} ChoicesAreCombinations(g: seq<nat>, start: nat, n: nat, k: nat)
    requires start <= n && Choice(g, start, n, k)
    ensures g in Combinations(start, n, k)
    decreases k, n - start
  {
    if k > 0 {
      assert start <= g[0] < n;
      if g[0] == start {
        TailOfChoice(g, start, n, k);
        ChoicesAreCombinations(g[1..], start + 1, n, k - 1);
        assert g == [start] + g[1..];
        PrependReaches(start, Combinations(start + 1, n, k - 1), g[1..]);
      } else {
        LaterChoice(g, start, n, k);
        ChoicesAreCombinations(g, start + 1, n, k);
      }
    }
  }

  lemma PrependReaches(first: nat, choices: seq<seq<nat>>, tail: seq<nat>)
    requires tail in choices
    ensures [first] + tail in Prepend(first, choices)
  {
    var i :| 0 <= i < |choices| && choices[i] == tail;
    assert Prepend(first, choices)[i] == [first] + tail;
  }

  lemma TailOfChoice(g: seq<nat>, start: nat, n: nat, k: nat)
    requires Choice(g, start, n, k) && k > 0
    ensures Choice(g[1..], start + 1, n, k - 1)
  {
    forall i | 0 <= i < k - 1 ensures start + 1 <= g[1..][i] < n { assert g[0] < g[i + 1]; }
  }

  lemma LaterChoice(g: seq<nat>, start: nat, n: nat, k: nat)
    requires Choice(g, start, n, k) && k > 0 && g[0] != start
    ensures Choice(g, start + 1, n, k)
  {
    forall i | 0 <= i < k ensures start + 1 <= g[i] {
      if i > 0 { assert g[0] < g[i]; }
    }
  }

  // ---------- admission and score ----------

  function Matching(group: seq<Candidate>, holds: Candidate -> bool): (n: nat)
    ensures n <= |group|
  {
    if group == [] then 0
    else (if holds(group[0]) then 1 else 0) + Matching(group[1..], holds)
  }

  predicate RequiredDailyMix(group: seq<Candidate>) {
    && Matching(group, (c: Candidate) => c.role == Themed) == 3
    && Matching(group, (c: Candidate) => c.role == Variety) == 2
    && Matching(group, (c: Candidate) => c.depth == Light) == 1
    && Matching(group, (c: Candidate) => c.depth == Reflective) == 2
    && Matching(group, (c: Candidate) => c.depth == Deeper) == 2
  }

  function Kinds(group: seq<Candidate>): set<Kind> { set c | c in group :: c.kind }

  function Categories(group: seq<Candidate>): set<Category> { set c | c in group :: c.category }

  function Excess(count: int): nat { if count > 2 then (count - 2) * 40 else 0 }

  function KindExcess(group: seq<Candidate>, kind: Kind): nat {
    Excess(Matching(group, (c: Candidate) => c.kind == kind))
  }

  function CategoryExcess(group: seq<Candidate>, category: Category): nat {
    Excess(Matching(group, (c: Candidate) => c.category == category))
  }

  /** Warmth and variety; a kind or category that is absent has no excess. */
  function Score(group: seq<Candidate>, generated: set<Id>): int {
    var meaningful := exists c :: c in group && c.category in {Connection, Memories, Values, Dreams};
    var light := exists c :: c in group && c.category in {Everyday, Playful};
    |Kinds(group)| * 20 + |Categories(group)| * 16
    + Matching(group, (c: Candidate) => c.id in generated) * 2
    + (if meaningful then 15 else 0) + (if light then 15 else 0)
    - (KindExcess(group, Single) + KindExcess(group, Multiple) + KindExcess(group, Weighted)
       + KindExcess(group, PartnerGuess) + KindExcess(group, FreeText))
    - (CategoryExcess(group, Playful) + CategoryExcess(group, Everyday) + CategoryExcess(group, Dreams)
       + CategoryExcess(group, Memories) + CategoryExcess(group, Values) + CategoryExcess(group, Connection)
       + CategoryExcess(group, Intimacy))
  }

  function Ids(group: seq<Candidate>): (ids: seq<Id>)
    ensures |ids| == |group|
  {
    seq(|group|, i requires 0 <= i < |group| => group[i].id)
  }

  predicate LexLess(a: seq<nat>, b: seq<nat>) {
    if a == [] then b != []
    else if b == [] then false
    else a[0] < b[0] || (a[0] == b[0] && LexLess(a[1..], b[1..]))
  }

  lemma {:induction false} LexLessIsTransitive(a: seq<nat>, b: seq<nat>, c: seq<nat>)
    requires LexLess(a, b) && LexLess(b, c)
    ensures LexLess(a, c)
  {
    if a != [] && a[0] == b[0] == c[0] { LexLessIsTransitive(a[1..], b[1..], c[1..]); }
  }

  /** The first group would replace the second: a higher score, or the same with smaller identifiers. */
  predicate Beats(a: seq<Candidate>, b: seq<Candidate>, score: seq<Candidate> -> int) {
    score(a) > score(b) || (score(a) == score(b) && LexLess(Ids(a), Ids(b)))
  }

  lemma BeatsIsTransitive(a: seq<Candidate>, b: seq<Candidate>, c: seq<Candidate>, score: seq<Candidate> -> int)
    requires Beats(a, b, score) && Beats(b, c, score)
    ensures Beats(a, c, score)
  {
    if score(a) == score(b) == score(c) {
      LexLessIsTransitive(Ids(a), Ids(b), Ids(c));
    }
  }

  function Pick(candidates: seq<Candidate>, g: seq<nat>): (group: seq<Candidate>)
    requires forall i :: 0 <= i < |g| ==> g[i] < |candidates|
    ensures |group| == |g| && forall i :: 0 <= i < |g| ==> group[i] == candidates[g[i]]
  {
    seq(|g|, i requires 0 <= i < |g| => candidates[g[i]])
  }

  function Considered(candidates: seq<Candidate>): nat {
    if |candidates| < PoolBound then |candidates| else PoolBound
  }

  /** Five positions of the considered pool whose questions meet the required mix. */
  predicate Admissible(candidates: seq<Candidate>, g: seq<nat>) {
    Choice(g, 0, Considered(candidates), 5) && RequiredDailyMix(Pick(candidates, g))
  }

  // ---------- the order of a day ----------

  function DepthRank(depth: Depth): nat {
    match depth case Light => 0 case Reflective => 1 case Deeper => 2
  }

  function CategoryRank(category: Category): nat {
    match category
    case Playful => 0 case Everyday => 1 case Dreams => 2 case Memories => 3
    case Values => 4 case Connection => 5 case Intimacy => 6
  }

  function KindRank(kind: Kind): nat {
    match kind case Single => 0 case Multiple => 1 case Weighted => 2 case PartnerGuess => 3 case FreeText => 4
  }

  /** The three ranks as one number, compared in the same order as the triple. */
  function Rank(c: Candidate): nat {
    (DepthRank(c.depth) * 7 + CategoryRank(c.category)) * 5 + KindRank(c.kind)
  }

  lemma RankIsTheTriple(a: Candidate, b: Candidate)
    ensures Rank(a) < Rank(b) <==>
              || DepthRank(a.depth) < DepthRank(b.depth)
              || (a.depth == b.depth && CategoryRank(a.category) < CategoryRank(b.category))
              || (a.depth == b.depth && a.category == b.category && KindRank(a.kind) < KindRank(b.kind))
  {
  }

  const CategoryProgression: seq<Category> := [Playful, Everyday, Dreams, Memories, Values, Connection, Intimacy]
  const KindProgression: seq<Kind> := [Single, Multiple, Weighted, PartnerGuess, FreeText]
  const DepthProgression: seq<Depth> := [Light, Reflective, Deeper]

  /** The ranks follow the intended progression and leave nothing out. */
  lemma RanksFollowTheProgression(a: Candidate)
    ensures CategoryRank(a.category) < 7 && CategoryProgression[CategoryRank(a.category)] == a.category
    ensures KindRank(a.kind) < 5 && KindProgression[KindRank(a.kind)] == a.kind
    ensures DepthRank(a.depth) < 3 && DepthProgression[DepthRank(a.depth)] == a.depth
  {
  }

  function Insert(sorted: seq<Candidate>, item: Candidate): seq<Candidate> {
    if sorted == [] || Rank(sorted[|sorted| - 1]) <= Rank(item) then sorted + [item]
    else Insert(sorted[..|sorted| - 1], item) + [sorted[|sorted| - 1]]
  }

  function OrderForConversation(items: seq<Candidate>): seq<Candidate> {
    if items == [] then []
    else Insert(OrderForConversation(items[..|items| - 1]), items[|items| - 1])
  }

  predicate Sorted(items: seq<Candidate>) {
    forall i, j :: 0 <= i < j < |items| ==> Rank(items[i]) <= Rank(items[j])
  }

  function OfRank(items: seq<Candidate>, rank: nat): seq<Candidate> {
    if items == [] then []
    else OfRank(items[..|items| - 1], rank)
         + if Rank(items[|items| - 1]) == rank then [items[|items| - 1]] else []
  }

  predicate AtMost(items: seq<Candidate>, rank: nat) {
    forall i :: 0 <= i < |items| ==> Rank(items[i]) <= rank
  }

  lemma {:induction false} InsertStaysAtMost(sorted: seq<Candidate>, item: Candidate, rank: nat)
    requires AtMost(sorted, rank) && Rank(item) <= rank
    ensures AtMost(Insert(sorted, item), rank)
  {
    if sorted != [] && Rank(sorted[|sorted| - 1]) > Rank(item) {
      InsertStaysAtMost(sorted[..|sorted| - 1], item, rank);
    }
  }

  lemma {:induction false} InsertIsSorted(sorted: seq<Candidate>, item: Candidate)
    requires Sorted(sorted)
    ensures Sorted(Insert(sorted, item))
  {
    if sorted != [] && Rank(sorted[|sorted| - 1]) > Rank(item) {
      var n := |sorted| - 1;
      InsertIsSorted(sorted[..n], item);
      InsertStaysAtMost(sorted[..n], item, Rank(sorted[n]));
    }
  }

  lemma {:induction false} InsertAdds(sorted: seq<Candidate>, item: Candidate)
    ensures multiset(Insert(sorted, item)) == multiset(sorted) + multiset{item}
  {
    if sorted != [] && Rank(sorted[|sorted| - 1]) > Rank(item) {
      var n := |sorted| - 1;
      InsertAdds(sorted[..n], item);
      assert sorted == sorted[..n] + [sorted[n]];
    }
  }

  lemma OfRankOfLast(items: seq<Candidate>, last: Candidate, rank: nat)
    ensures OfRank(items + [last], rank) == OfRank(items, rank) + if Rank(last) == rank then [last] else []
  {
    assert (items + [last])[..|items|] == items;
  }

  lemma {:induction false} InsertIsStable(sorted: seq<Candidate>, item: Candidate, rank: nat)
    ensures OfRank(Insert(sorted, item), rank) == OfRank(sorted, rank) + if Rank(item) == rank then [item] else []
  {
    if sorted == [] || Rank(sorted[|sorted| - 1]) <= Rank(item) {
      OfRankOfLast(sorted, item, rank);
    } else {
      var n := |sorted| - 1;
      var init, last := sorted[..n], sorted[n];
      InsertIsStable(init, item, rank);
      OfRankOfLast(Insert(init, item), last, rank);
      if Rank(last) == rank {
        assert OfRank(Insert(init, item), rank) == OfRank(init, rank);
      } else {
        assert OfRank(sorted, rank) == OfRank(init, rank);
      }
    }
  }

  /** The order is the stable sort by rank: sorted, and questions of one rank keep their order. */
  lemma OrderIsAStableSort(items: seq<Candidate>)
    ensures Sorted(OrderForConversation(items))
    ensures multiset(OrderForConversation(items)) == multiset(items)
    ensures forall rank :: OfRank(OrderForConversation(items), rank) == OfRank(items, rank)
  {
    OrderIsSorted(items);
    forall rank ensures OfRank(OrderForConversation(items), rank) == OfRank(items, rank) {
      OrderIsStable(items, rank);
    }
  }

  lemma {:induction false} OrderIsSorted(items: seq<Candidate>)
    ensures Sorted(OrderForConversation(items))
    ensures multiset(OrderForConversation(items)) == multiset(items)
  {
    if items != [] {
      var n := |items| - 1;
      OrderIsSorted(items[..n]);
      InsertIsSorted(OrderForConversation(items[..n]), items[n]);
      InsertAdds(OrderForConversation(items[..n]), items[n]);
      assert items == items[..n] + [items[n]];
    }
  }

  lemma {:induction false} OrderIsStable(items: seq<Candidate>, rank: nat)
    ensures OfRank(OrderForConversation(items), rank) == OfRank(items, rank)
  {
    if items != [] {
      var n := |items| - 1;
      OrderIsStable(items[..n], rank);
      InsertIsStable(OrderForConversation(items[..n]), items[n], rank);
    }
  }

  lemma {:induction false} MatchingOfAppend(a: seq<Candidate>, b: seq<Candidate>, holds: Candidate -> bool)
    ensures Matching(a + b, holds) == Matching(a, holds) + Matching(b, holds)
  {
    if a == [] {
      assert a + b == b;
    } else {
      assert (a + b)[1..] == a[1..] + b;
      MatchingOfAppend(a[1..], b, holds);
    }
  }

  lemma MatchingOfOne(item: Candidate, holds: Candidate -> bool)
    ensures Matching([item], holds) == if holds(item) then 1 else 0
  {
    assert [item][1..] == [];
  }

  lemma {:induction false} InsertMatches(sorted: seq<Candidate>, item: Candidate, holds: Candidate -> bool)
    ensures Matching(Insert(sorted, item), holds) == Matching(sorted, holds) + if holds(item) then 1 else 0
    ensures |Insert(sorted, item)| == |sorted| + 1
  {
    MatchingOfOne(item, holds);
    if sorted == [] || Rank(sorted[|sorted| - 1]) <= Rank(item) {
      MatchingOfAppend(sorted, [item], holds);
    } else {
      var n := |sorted| - 1;
      InsertMatches(sorted[..n], item, holds);
      MatchingOfAppend(Insert(sorted[..n], item), [sorted[n]], holds);
      MatchingOfAppend(sorted[..n], [sorted[n]], holds);
      assert sorted == sorted[..n] + [sorted[n]];
    }
  }

  lemma {:induction false} OrderMatches(items: seq<Candidate>, holds: Candidate -> bool)
    ensures Matching(OrderForConversation(items), holds) == Matching(items, holds)
    ensures |OrderForConversation(items)| == |items|
  {
    if items != [] {
      var n := |items| - 1;
      OrderMatches(items[..n], holds);
      InsertMatches(OrderForConversation(items[..n]), items[n], holds);
      MatchingOfOne(items[n], holds);
      MatchingOfAppend(items[..n], [items[n]], holds);
      assert items == items[..n] + [items[n]];
    }
  }

  lemma OrderKeepsTheMix(group: seq<Candidate>)
    ensures RequiredDailyMix(OrderForConversation(group)) <==> RequiredDailyMix(group)
    ensures |OrderForConversation(group)| == |group|
  {
    OrderMatches(group, (c: Candidate) => c.role == Themed);
    OrderMatches(group, (c: Candidate) => c.role == Variety);
    OrderMatches(group, (c: Candidate) => c.depth == Light);
    OrderMatches(group, (c: Candidate) => c.depth == Reflective);
    OrderMatches(group, (c: Candidate) => c.depth == Deeper);
  }

  predicate Ladder(day: seq<Candidate>) {
    && |day| == 5
    && day[0].depth == Light && day[1].depth == Reflective && day[2].depth == Reflective
    && day[3].depth == Deeper && day[4].depth == Deeper
  }

  /** A sorted day with the required mix climbs from light to deeper. */
  lemma SortedMixIsALadder(day: seq<Candidate>)
    requires |day| == 5 && Sorted(day) && RequiredDailyMix(day)
    ensures Ladder(day)
  {
    var (a, b, c, d, e) := (day[0], day[1], day[2], day[3], day[4]);
    RankIsTheTriple(b, a);
    RankIsTheTriple(c, b);
    RankIsTheTriple(d, c);
    RankIsTheTriple(e, d);
    CountOfFive(day, (x: Candidate) => x.depth == Light);
    CountOfFive(day, (x: Candidate) => x.depth == Reflective);
    CountOfFive(day, (x: Candidate) => x.depth == Deeper);
  }

  function One(b: bool): nat { if b then 1 else 0 }

  lemma CountOfFive(day: seq<Candidate>, holds: Candidate -> bool)
    requires |day| == 5
    ensures Matching(day, holds)
            == One(holds(day[0])) + One(holds(day[1])) + One(holds(day[2])) + One(holds(day[3])) + One(holds(day[4]))
  {
    assert day[1..][1..] == day[2..] && day[2..][1..] == day[3..] && day[3..][1..] == day[4..] && day[4..][1..] == [];
    assert Matching(day[4..], holds) == One(holds(day[4]));
    assert Matching(day[3..], holds) == One(holds(day[3])) + Matching(day[4..], holds);
    assert Matching(day[2..], holds) == One(holds(day[2])) + Matching(day[3..], holds);
    assert Matching(day[1..], holds) == One(holds(day[1])) + Matching(day[2..], holds);
  }

  // ---------- what the score rewards ----------

  predicate KindsDiffer(group: seq<Candidate>) {
    forall i, j :: 0 <= i < j < |group| ==> group[i].kind != group[j].kind
  }

  predicate CategoriesDiffer(group: seq<Candidate>) {
    forall i, j :: 0 <= i < j < |group| ==> group[i].category != group[j].category
  }

  lemma FiveOf<T>(a: T, b: T, c: T, d: T, e: T)
    ensures 1 <= |{a, b, c, d, e}| <= 5
    ensures |{a, b, c, d, e}| == 5 <==> a !in {b, c, d, e} && b !in {c, d, e} && c !in {d, e} && d != e
  {
    OneMore({e}, d);
    OneMore({d, e}, c);
    OneMore({c, d, e}, b);
    OneMore({b, c, d, e}, a);
    assert {e} + {d} == {d, e} && {d, e} + {c} == {c, d, e} && {c, d, e} + {b} == {b, c, d, e};
    assert {b, c, d, e} + {a} == {a, b, c, d, e};
  }

  lemma OneMore<T>(items: set<T>, item: T)
    ensures |items + {item}| == |items| + if item in items then 0 else 1
  {
    if item in items { assert items + {item} == items; }
  }

  lemma KindPart(group: seq<Candidate>)
    requires |group| == 5
    ensures 1 <= |Kinds(group)| <= 5 && (|Kinds(group)| == 5 <==> KindsDiffer(group))
    ensures var excess := KindExcess(group, Single) + KindExcess(group, Multiple) + KindExcess(group, Weighted)
                          + KindExcess(group, PartnerGuess) + KindExcess(group, FreeText);
            excess <= 120 && (KindsDiffer(group) ==> excess == 0)
  {
    var (a, b, c, d, e) := (group[0].kind, group[1].kind, group[2].kind, group[3].kind, group[4].kind);
    assert forall i :: 0 <= i < 5 ==> group[i] in group;
    assert Kinds(group) == {a, b, c, d, e};
    FiveOf(a, b, c, d, e);
    KindCounts(group);
  }

  lemma KindCounts(group: seq<Candidate>)
    requires |group| == 5
    ensures var excess := KindExcess(group, Single) + KindExcess(group, Multiple) + KindExcess(group, Weighted)
                          + KindExcess(group, PartnerGuess) + KindExcess(group, FreeText);
            excess <= 120 && (KindsDiffer(group) ==> excess == 0)
  {
    EveryoneHasAKind(group);
    SevenParts(OfKind(group, Single), OfKind(group, Multiple), OfKind(group, Weighted),
               OfKind(group, PartnerGuess), OfKind(group, FreeText), 0, 0);
    if KindsDiffer(group) {
      forall kind ensures KindExcess(group, kind) == 0 { KindOnce(group, kind); }
    }
  }

  function OfKind(group: seq<Candidate>, kind: Kind): nat {
    Matching(group, (c: Candidate) => c.kind == kind)
  }

  lemma {:induction false} EveryoneHasAKind(group: seq<Candidate>)
    ensures OfKind(group, Single) + OfKind(group, Multiple) + OfKind(group, Weighted)
            + OfKind(group, PartnerGuess) + OfKind(group, FreeText) == |group|
  {
    if group != [] { EveryoneHasAKind(group[1..]); }
  }

  lemma KindOnce(group: seq<Candidate>, kind: Kind)
    requires |group| == 5 && KindsDiffer(group)
    ensures KindExcess(group, kind) == 0
  {
    CountOfFive(group, (c: Candidate) => c.kind == kind);
  }

  lemma CategoryPart(group: seq<Candidate>)
    requires |group| == 5
    ensures 1 <= |Categories(group)| <= 5 && (|Categories(group)| == 5 <==> CategoriesDiffer(group))
    ensures var excess := CategoryExcess(group, Playful) + CategoryExcess(group, Everyday) + CategoryExcess(group, Dreams)
                          + CategoryExcess(group, Memories) + CategoryExcess(group, Values)
                          + CategoryExcess(group, Connection) + CategoryExcess(group, Intimacy);
            excess <= 120 && (CategoriesDiffer(group) ==> excess == 0)
  {
    var (a, b, c, d, e) := (group[0].category, group[1].category, group[2].category, group[3].category, group[4].category);
    assert forall i :: 0 <= i < 5 ==> group[i] in group;
    assert Categories(group) == {a, b, c, d, e};
    FiveOf(a, b, c, d, e);
    CategoryCounts(group);
  }

  lemma CategoryCounts(group: seq<Candidate>)
    requires |group| == 5
    ensures var excess := CategoryExcess(group, Playful) + CategoryExcess(group, Everyday) + CategoryExcess(group, Dreams)
                          + CategoryExcess(group, Memories) + CategoryExcess(group, Values)
                          + CategoryExcess(group, Connection) + CategoryExcess(group, Intimacy);
            excess <= 120 && (CategoriesDiffer(group) ==> excess == 0)
  {
    EveryoneHasACategory(group);
    SevenParts(OfCategory(group, Playful), OfCategory(group, Everyday), OfCategory(group, Dreams),
               OfCategory(group, Memories), OfCategory(group, Values), OfCategory(group, Connection),
               OfCategory(group, Intimacy));
    if CategoriesDiffer(group) {
      forall category ensures CategoryExcess(group, category) == 0 { CategoryOnce(group, category); }
    }
  }

  function OfCategory(group: seq<Candidate>, category: Category): nat {
    Matching(group, (c: Candidate) => c.category == category)
  }

  lemma {:induction false} EveryoneHasACategory(group: seq<Candidate>)
    ensures OfCategory(group, Playful) + OfCategory(group, Everyday) + OfCategory(group, Dreams)
            + OfCategory(group, Memories) + OfCategory(group, Values) + OfCategory(group, Connection)
            + OfCategory(group, Intimacy) == |group|
  {
    if group != [] { EveryoneHasACategory(group[1..]); }
  }

  lemma CategoryOnce(group: seq<Candidate>, category: Category)
    requires |group| == 5 && CategoriesDiffer(group)
    ensures CategoryExcess(group, category) == 0
  {
    CountOfFive(group, (c: Candidate) => c.category == category);
  }

  lemma SevenParts(a: nat, b: nat, c: nat, d: nat, e: nat, f: nat, g: nat)
    requires a + b + c + d + e + f + g == 5
    ensures Excess(a) + Excess(b) + Excess(c) + Excess(d) + Excess(e) + Excess(f) + Excess(g) <= 120
  {
  }

  lemma AllGenerated(group: seq<Candidate>, generated: set<Id>)
    requires |group| == 5
    ensures Matching(group, (c: Candidate) => c.id in generated) == 5
            <==> forall i :: 0 <= i < 5 ==> group[i].id in generated
  {
    CountOfFive(group, (c: Candidate) => c.id in generated);
  }

  /** Five different categories always include a meaningful one. */
  lemma FiveCategoriesMeanSomething(group: seq<Candidate>)
    requires |group| == 5 && CategoriesDiffer(group)
    ensures exists c :: c in group && c.category in {Connection, Memories, Values, Dreams}
  {
    assert forall i :: 0 <= i < 5 ==> group[i] in group;
    assert exists i :: 0 <= i < 5 && group[i].category in {Connection, Memories, Values, Dreams} by {
      var rest := {Playful, Everyday, Intimacy};
      var (a, b, c, d) := (group[0].category, group[1].category, group[2].category, group[3].category);
      assert !(a in rest && b in rest && c in rest && d in rest);
    }
  }

  /**
     Every five questions score between -204 and 220, and 220 is scored exactly by five generated
     questions of five kinds and five categories, one of them light.
   */
  lemma ScoreIsBounded(group: seq<Candidate>, generated: set<Id>)
    requires |group| == 5
    ensures -204 <= Score(group, generated) <= 220
    ensures Score(group, generated) == 220 <==>
              && KindsDiffer(group) && CategoriesDiffer(group)
              && (forall i :: 0 <= i < 5 ==> group[i].id in generated)
              && exists c :: c in group && c.category in {Everyday, Playful}
  {
    KindPart(group);
    CategoryPart(group);
    AllGenerated(group, generated);
    if CategoriesDiffer(group) { FiveCategoriesMeanSomething(group); }
  }

  /** Only one kind can come more than twice, and each time beyond the second costs forty. */
  lemma KindsCost(group: seq<Candidate>, kind: Kind)
    requires |group| == 5 && forall other: Kind :: OfKind(group, other) <= OfKind(group, kind)
    ensures KindExcess(group, Single) + KindExcess(group, Multiple) + KindExcess(group, Weighted)
            + KindExcess(group, PartnerGuess) + KindExcess(group, FreeText)
            == if OfKind(group, kind) <= 2 then 0 else 40 * (OfKind(group, kind) - 2)
  {
    EveryoneHasAKind(group);
    assert kind.Single? || kind.Multiple? || kind.Weighted? || kind.PartnerGuess? || kind.FreeText?;
    var others := OfKind(group, Single) + OfKind(group, Multiple) + OfKind(group, Weighted)
                  + OfKind(group, PartnerGuess) + OfKind(group, FreeText) - OfKind(group, kind);
    assert others == 5 - OfKind(group, kind);
    forall other: Kind | other != kind ensures KindExcess(group, other) == 0 {
      assert OfKind(group, other) <= others;
    }
  }

  lemma CategoriesCost(group: seq<Candidate>, category: Category)
    requires |group| == 5 && forall other: Category :: OfCategory(group, other) <= OfCategory(group, category)
    ensures CategoryExcess(group, Playful) + CategoryExcess(group, Everyday) + CategoryExcess(group, Dreams)
            + CategoryExcess(group, Memories) + CategoryExcess(group, Values) + CategoryExcess(group, Connection)
            + CategoryExcess(group, Intimacy)
            == if OfCategory(group, category) <= 2 then 0 else 40 * (OfCategory(group, category) - 2)
  {
    EveryoneHasACategory(group);
    assert category.Playful? || category.Everyday? || category.Dreams? || category.Memories? || category.Values?
           || category.Connection? || category.Intimacy?;
    var others := OfCategory(group, Playful) + OfCategory(group, Everyday) + OfCategory(group, Dreams)
                  + OfCategory(group, Memories) + OfCategory(group, Values) + OfCategory(group, Connection)
                  + OfCategory(group, Intimacy) - OfCategory(group, category);
    assert others == 5 - OfCategory(group, category);
    forall other: Category | other != category ensures CategoryExcess(group, other) == 0 {
      assert OfCategory(group, other) <= others;
    }
  }

  /**
   What a group of five scores: twenty for each kind and sixteen for each category in it, two for each
   generated question, fifteen for something meaningful and for something light, and forty less for each
   time beyond the second that its most frequent kind, or category, occurs.
   */
  lemma ScoreOfFive(group: seq<Candidate>, generated: set<Id>, kind: Kind, category: Category)
    requires |group| == 5
    requires forall other: Kind :: OfKind(group, other) <= OfKind(group, kind)
    requires forall other: Category :: OfCategory(group, other) <= OfCategory(group, category)
    ensures Score(group, generated)
            == 20 * |set i | 0 <= i < 5 :: group[i].kind| + 16 * |set i | 0 <= i < 5 :: group[i].category|
               + 2 * Matching(group, (c: Candidate) => c.id in generated)
               + (if exists i :: 0 <= i < 5 && group[i].category in {Dreams, Memories, Values, Connection} then 15 else 0)
               + (if exists i :: 0 <= i < 5 && group[i].category in {Playful, Everyday} then 15 else 0)
               - (if OfKind(group, kind) <= 2 then 0 else 40 * (OfKind(group, kind) - 2))
               - (if OfCategory(group, category) <= 2 then 0 else 40 * (OfCategory(group, category) - 2))
  {
    KindsCost(group, kind);
    CategoriesCost(group, category);
    assert (set i | 0 <= i < 5 :: group[i].kind) == Kinds(group);
    assert (set i | 0 <= i < 5 :: group[i].category) == Categories(group);
    assert forall i :: 0 <= i < 5 ==> group[i] in group;
  }

  // ---------- the search ----------

  /** `chosen` are the positions of an admissible five that no admissible five beats. */
  ghost predicate Optimal(candidates: seq<Candidate>, chosen: seq<nat>, score: seq<Candidate> -> int) {
    && Admissible(candidates, chosen)
    && forall g :: Admissible(candidates, g) ==> !Beats(Pick(candidates, g), Pick(candidates, chosen), score)
  }

  lemma {:induction false} SmallerAtFirstDifference(a: seq<nat>, b: seq<nat>, k: nat)
    requires k < |a| && k < |b| && a[..k] == b[..k] && a[k] < b[k]
    ensures LexLess(a, b)
  {
    if k > 0 {
      assert a[0] == a[..k][0] == b[..k][0] == b[0];
      assert a[1..][..k - 1] == a[..k][1..] == b[..k][1..] == b[1..][..k - 1];
      SmallerAtFirstDifference(a[1..], b[1..], k - 1);
    }
  }

  /** No admissible five scores more, and one that scores as much has the larger identifier where they first differ. */
  lemma OptimalIsBest(candidates: seq<Candidate>, chosen: seq<nat>, score: seq<Candidate> -> int, g: seq<nat>, k: nat)
    requires Optimal(candidates, chosen, score) && Admissible(candidates, g)
    ensures var (best, other) := (Pick(candidates, chosen), Pick(candidates, g));
            && score(other) <= score(best)
            && (score(other) == score(best) && k < 5 && (forall j :: 0 <= j < k ==> other[j].id == best[j].id)
                ==> best[k].id <= other[k].id)
  {
    var (best, other) := (Pick(candidates, chosen), Pick(candidates, g));
    if score(other) == score(best) && k < 5 && (forall j :: 0 <= j < k ==> other[j].id == best[j].id)
       && other[k].id < best[k].id {
      SmallerAtFirstDifference(Ids(other), Ids(best), k);
    }
  }

  /** The running best over every combination; none exactly when no five is admissible. */
  method Search(candidates: seq<Candidate>, score: seq<Candidate> -> int)
    returns (best: Option<seq<Candidate>>, ghost chosen: seq<nat>)
    ensures best.Some? <==> exists g :: Admissible(candidates, g)
    ensures best.Some? ==> Optimal(candidates, chosen, score) && best.value == Pick(candidates, chosen)
  {
    var n := Considered(candidates);
    var choices := Combinations(0, n, 5);
    best, chosen := None, [];
    for i := 0 to |choices|
      invariant best.Some? ==> Admissible(candidates, chosen) && best.value == Pick(candidates, chosen)
      invariant forall k :: 0 <= k < i ==> Outdone(candidates, choices[k], best, score)
    {
      CombinationsAreChoices(0, n, 5, i);
      var group := Pick(candidates, choices[i]);
      if RequiredDailyMix(group) && (best.None? || Beats(group, best.value, score)) {
        forall k | 0 <= k < i ensures Outdone(candidates, choices[k], Some(group), score) {
          OutdoneStill(candidates, choices[k], best, group, score);
        }
        best, chosen := Some(group), choices[i];
        LexLessIsIrreflexive(Ids(group));
      }
    }
    forall g | Admissible(candidates, g) ensures Outdone(candidates, g, best, score) {
      ChoicesAreCombinations(g, 0, n, 5);
    }
  }

  /** A choice that is not admissible, or does not beat the best so far. */
  predicate Outdone(candidates: seq<Candidate>, g: seq<nat>, best: Option<seq<Candidate>>, score: seq<Candidate> -> int) {
    Admissible(candidates, g) ==> best.Some? && !Beats(Pick(candidates, g), best.value, score)
  }

  lemma OutdoneStill(candidates: seq<Candidate>, g: seq<nat>, best: Option<seq<Candidate>>, group: seq<Candidate>,
                     score: seq<Candidate> -> int)
    requires Outdone(candidates, g, best, score)
    requires best.None? || Beats(group, best.value, score)
    ensures Outdone(candidates, g, Some(group), score)
  {
    if Admissible(candidates, g) && Beats(Pick(candidates, g), group, score) {
      BeatsIsTransitive(Pick(candidates, g), group, best.value, score);
    }
  }

  function Scoring(generated: set<Id>): seq<Candidate> -> int {
    group => Score(group, generated)
  }

  /** The best admissible five of the considered pool, asked from light to deeper. */
  method BalancedFive(candidates: seq<Candidate>, generated: set<Id>)
    returns (day: Option<seq<Candidate>>, ghost chosen: seq<nat>)
    ensures day.Some? <==> exists g :: Admissible(candidates, g)
    ensures day.Some? ==>
              && Optimal(candidates, chosen, Scoring(generated))
              && day.value == OrderForConversation(Pick(candidates, chosen))
              && Sorted(day.value) && RequiredDailyMix(day.value) && Ladder(day.value)
  {
    var best: Option<seq<Candidate>>;
    best, chosen := Search(candidates, Scoring(generated));
    if best.None? { return None, []; }
    OrderKeepsTheMix(best.value);
    OrderIsAStableSort(best.value);
    SortedMixIsALadder(OrderForConversation(best.value));
    day := Some(OrderForConversation(best.value));
  }

  lemma {:induction false} LexLessIsIrreflexive(a: seq<nat>)
    ensures !LexLess(a, a)
  {
    if a != [] { LexLessIsIrreflexive(a[1..]); }
  }

  // ---------- when a mix exists ----------

  function InCell(role: Role, depth: Depth): Candidate -> bool {
    (c: Candidate) => c.role == role && c.depth == depth
  }

  /** How many questions of a pool have a role and a depth. */
  function Cell(pool: seq<Candidate>, role: Role, depth: Depth): nat {
    Matching(pool, InCell(role, depth))
  }

  /** How many questions to take of each depth. */
  datatype Amounts = Amounts(light: nat, reflective: nat, deeper: nat)

  function Amount(a: Amounts, depth: Depth): nat {
    match depth case Light => a.light case Reflective => a.reflective case Deeper => a.deeper
  }

  function LessOf(a: Amounts, depth: Depth): Amounts
    requires Amount(a, depth) > 0
  {
    match depth
    case Light => a.(light := a.light - 1)
    case Reflective => a.(reflective := a.reflective - 1)
    case Deeper => a.(deeper := a.deeper - 1)
  }

  datatype Wants = Wants(themed: Amounts, variety: Amounts)

  function Want(w: Wants, role: Role, depth: Depth): nat {
    Amount(if role == Themed then w.themed else w.variety, depth)
  }

  function OneLess(w: Wants, role: Role, depth: Depth): Wants
    requires Want(w, role, depth) > 0
  {
    if role == Themed then w.(themed := LessOf(w.themed, depth)) else w.(variety := LessOf(w.variety, depth))
  }

  function Wanted(w: Wants): nat {
    Want(w, Themed, Light) + Want(w, Themed, Reflective) + Want(w, Themed, Deeper)
    + Want(w, Variety, Light) + Want(w, Variety, Reflective) + Want(w, Variety, Deeper)
  }

  /** The pool has enough of everything wanted. */
  ghost predicate Supplies(pool: seq<Candidate>, w: Wants) {
    forall role, depth :: Cell(pool, role, depth) >= Want(w, role, depth)
  }

  /** Three themed and two for variety, split over one light, two reflective and two deeper. */
  function DayWants(light: nat, reflective: nat, deeper: nat): Wants
    requires light <= 1 && reflective <= 2 && deeper <= 2
  {
    Wants(Amounts(light, reflective, deeper), Amounts(1 - light, 2 - reflective, 2 - deeper))
  }

  ghost predicate SuppliesDay(pool: seq<Candidate>, light: nat, reflective: nat, deeper: nat) {
    && light <= 1 && reflective <= 2 && deeper <= 2 && light + reflective + deeper == 3
    && Supplies(pool, DayWants(light, reflective, deeper))
  }

  /** Six counts decide whether the considered pool holds an admissible five. */
  ghost predicate MixPossible(candidates: seq<Candidate>) {
    exists light: nat, reflective: nat, deeper: nat ::
      SuppliesDay(candidates[..Considered(candidates)], light, reflective, deeper)
  }

  lemma {:induction false} MatchingSplits(group: seq<Candidate>, whole: Candidate -> bool, a: Candidate -> bool, b: Candidate -> bool)
    requires forall c :: whole(c) <==> a(c) || b(c)
    requires forall c :: !(a(c) && b(c))
    ensures Matching(group, whole) == Matching(group, a) + Matching(group, b)
  {
    if group != [] { MatchingSplits(group[1..], whole, a, b); }
  }

  lemma MixInCells(group: seq<Candidate>)
    ensures RequiredDailyMix(group) <==>
              && Cell(group, Themed, Light) + Cell(group, Themed, Reflective) + Cell(group, Themed, Deeper) == 3
              && Cell(group, Themed, Light) + Cell(group, Variety, Light) == 1
              && Cell(group, Themed, Reflective) + Cell(group, Variety, Reflective) == 2
              && Cell(group, Themed, Deeper) + Cell(group, Variety, Deeper) == 2
  {
    MatchingSplits(group, (c: Candidate) => c.depth == Light, InCell(Themed, Light), InCell(Variety, Light));
    MatchingSplits(group, (c: Candidate) => c.depth == Reflective, InCell(Themed, Reflective), InCell(Variety, Reflective));
    MatchingSplits(group, (c: Candidate) => c.depth == Deeper, InCell(Themed, Deeper), InCell(Variety, Deeper));
    RoleInCells(group, Themed);
    RoleInCells(group, Variety);
  }

  lemma RoleInCells(group: seq<Candidate>, role: Role)
    ensures Matching(group, (c: Candidate) => c.role == role)
            == Cell(group, role, Light) + Cell(group, role, Reflective) + Cell(group, role, Deeper)
  {
    var later := (c: Candidate) => c.role == role && c.depth != Light;
    MatchingSplits(group, (c: Candidate) => c.role == role, InCell(role, Light), later);
    MatchingSplits(group, later, InCell(role, Reflective), InCell(role, Deeper));
  }

  lemma PickLast(pool: seq<Candidate>, g: seq<nat>, n: nat, k: nat)
    requires Choice(g, 0, n, k) && k > 0 && n <= |pool|
    ensures var last := g[k - 1];
            && Choice(g[..k - 1], 0, last, k - 1) && last < n
            && Pick(pool, g) == Pick(pool, g[..k - 1]) + [pool[last]]
  {
  }

  /** A choice has no more of a cell than the positions it chooses from. */
  lemma {:induction false} ChoiceWithinPool(pool: seq<Candidate>, g: seq<nat>, n: nat, k: nat, holds: Candidate -> bool)
    requires Choice(g, 0, n, k) && n <= |pool|
    ensures Matching(Pick(pool, g), holds) <= Matching(pool[..n], holds)
    decreases k
  {
    if k > 0 {
      var last := g[k - 1];
      PickLast(pool, g, n, k);
      ChoiceWithinPool(pool, g[..k - 1], last, k - 1, holds);
      MatchingOfAppend(Pick(pool, g[..k - 1]), [pool[last]], holds);
      assert pool[..n] == pool[..last] + [pool[last]] + pool[last + 1..n];
      MatchingOfAppend(pool[..last], [pool[last]], holds);
      MatchingOfAppend(pool[..last] + [pool[last]], pool[last + 1..n], holds);
    }
  }

  /** Positions, from the back, of questions still wanted. */
  function Take(pool: seq<Candidate>, w: Wants): seq<nat> {
    if pool == [] then []
    else
      var n := |pool| - 1;
      var (role, depth) := (pool[n].role, pool[n].depth);
      if Want(w, role, depth) > 0 then Take(pool[..n], OneLess(w, role, depth)) + [n] else Take(pool[..n], w)
  }

  lemma CellOfLast(pool: seq<Candidate>, last: Candidate, role: Role, depth: Depth)
    ensures Cell(pool + [last], role, depth)
            == Cell(pool, role, depth) + if last.role == role && last.depth == depth then 1 else 0
  {
    MatchingOfAppend(pool, [last], InCell(role, depth));
    MatchingOfOne(last, InCell(role, depth));
  }

  lemma OneLessIsOneLess(w: Wants, role: Role, depth: Depth)
    requires Want(w, role, depth) > 0
    ensures Wanted(OneLess(w, role, depth)) == Wanted(w) - 1
    ensures forall r, d :: Want(OneLess(w, role, depth), r, d) == Want(w, r, d) - if r == role && d == depth then 1 else 0
  {
  }

  lemma SuppliesWithoutLast(init: seq<Candidate>, last: Candidate, w: Wants)
    requires Supplies(init + [last], w)
    ensures if Want(w, last.role, last.depth) > 0 then Supplies(init, OneLess(w, last.role, last.depth)) else Supplies(init, w)
  {
    var wanted := Want(w, last.role, last.depth) > 0;
    var less := if wanted then OneLess(w, last.role, last.depth) else w;
    if wanted { OneLessIsOneLess(w, last.role, last.depth); }
    forall role, depth ensures Cell(init, role, depth) >= Want(less, role, depth) {
      CellOfLast(init, last, role, depth);
      assert Cell(init + [last], role, depth) >= Want(w, role, depth);
    }
  }

  lemma PickOfMore(init: seq<Candidate>, last: Candidate, g: seq<nat>, k: nat)
    requires Choice(g, 0, |init|, k)
    ensures Choice(g, 0, |init| + 1, k) && Pick(init + [last], g) == Pick(init, g)
    ensures Choice(g + [|init|], 0, |init| + 1, k + 1)
    ensures Pick(init + [last], g + [|init|]) == Pick(init, g) + [last]
  {
  }

  /** If the pool supplies what is wanted, the positions taken are a choice of exactly that. */
  lemma {:induction false} TakeIsWhatWasWanted(pool: seq<Candidate>, w: Wants)
    requires Supplies(pool, w)
    ensures Choice(Take(pool, w), 0, |pool|, Wanted(w))
    ensures forall role, depth :: Cell(Pick(pool, Take(pool, w)), role, depth) == Want(w, role, depth)
  {
    if pool == [] {
      NothingWanted(w);
    } else {
      var n := |pool| - 1;
      var (init, last) := (pool[..n], pool[n]);
      assert pool == init + [last];
      SuppliesWithoutLast(init, last, w);
      if Want(w, last.role, last.depth) > 0 {
        var less := OneLess(w, last.role, last.depth);
        OneLessIsOneLess(w, last.role, last.depth);
        TakeIsWhatWasWanted(init, less);
        PickOfMore(init, last, Take(init, less), Wanted(less));
        forall role, depth ensures Cell(Pick(pool, Take(pool, w)), role, depth) == Want(w, role, depth) {
          CellOfLast(Pick(init, Take(init, less)), last, role, depth);
        }
      } else {
        TakeIsWhatWasWanted(init, w);
        PickOfMore(init, last, Take(init, w), Wanted(w));
      }
    }
  }

  lemma NothingWanted(w: Wants)
    requires Supplies([], w)
    ensures Wanted(w) == 0
    ensures forall role, depth :: Cell(Pick([], []), role, depth) == Want(w, role, depth) == 0
  {
    assert Pick([], []) == [];
    forall role, depth ensures Cell(Pick([], []), role, depth) == Want(w, role, depth) == 0 {
      assert Cell([], role, depth) == 0 && Cell([], role, depth) >= Want(w, role, depth);
    }
    assert Want(w, Themed, Light) == Want(w, Themed, Reflective) == Want(w, Themed, Deeper) == 0;
    assert Want(w, Variety, Light) == Want(w, Variety, Reflective) == Want(w, Variety, Deeper) == 0;
  }

  lemma AdmissibleNeedsTheMix(candidates: seq<Candidate>, g: seq<nat>)
    requires Admissible(candidates, g)
    ensures MixPossible(candidates)
  {
    var n := Considered(candidates);
    var group := Pick(candidates, g);
    MixInCells(group);
    forall role, depth ensures Cell(group, role, depth) <= Cell(candidates[..n], role, depth) {
      ChoiceWithinPool(candidates, g, n, 5, InCell(role, depth));
    }
    var (l, r, d) := (Cell(group, Themed, Light), Cell(group, Themed, Reflective), Cell(group, Themed, Deeper));
    forall role, depth ensures Cell(candidates[..n], role, depth) >= Want(DayWants(l, r, d), role, depth) {
      assert Want(DayWants(l, r, d), role, depth) == Cell(group, role, depth);
    }
    assert SuppliesDay(candidates[..n], l, r, d);
  }

  lemma MixMakesAdmissible(candidates: seq<Candidate>) returns (g: seq<nat>)
    requires MixPossible(candidates)
    ensures Admissible(candidates, g)
  {
    var pool := candidates[..Considered(candidates)];
    var light: nat, reflective: nat, deeper: nat :| SuppliesDay(pool, light, reflective, deeper);
    var w := DayWants(light, reflective, deeper);
    TakeIsWhatWasWanted(pool, w);
    g := Take(pool, w);
    assert Pick(candidates, g) == Pick(pool, g);
    MixInCells(Pick(pool, g));
  }

  /** An admissible five exists exactly when the six counts allow one. */
  lemma AdmissibleWhenMixPossible(candidates: seq<Candidate>)
    ensures (exists g :: Admissible(candidates, g)) <==> MixPossible(candidates)
  {
    if g :| Admissible(candidates, g) { AdmissibleNeedsTheMix(candidates, g); }
    if MixPossible(candidates) { var g := MixMakesAdmissible(candidates); }
  }

  // ---------- the curated fallback ----------

  function FallbackDepth(slot: nat): Depth {
    if slot % 5 == 0 then Light else if slot % 5 < 3 then Reflective else Deeper
  }

  function FallbackRole(slot: nat): Role {
    if slot % 5 < 3 then Themed else Variety
  }

  /** A reviewed question dressed for its slot; `theme` is the tag derived from the day's title. */
  function FallbackMetadata(item: Candidate, slot: nat, theme: Option<string>): (dressed: Candidate)
    ensures dressed.id == item.id && dressed.prompt == item.prompt && dressed.intimacy == item.intimacy
    ensures dressed.kind == item.kind && dressed.category == item.category
    ensures slot >= 5 ==> dressed == FallbackMetadata(item, slot % 5, theme)
    decreases slot
  {
    item.(depth := FallbackDepth(slot), role := FallbackRole(slot),
          tags := if item.tags != [] then item.tags else [if theme.Some? then theme.value else "evergreen"])
  }

  /** What a slot does to a question: its place in the ladder of five, its role, and a tag only where there is none. */
  lemma SlotDresses(item: Candidate, slot: nat, theme: Option<string>)
    ensures var dressed := FallbackMetadata(item, slot, theme);
            && dressed.depth == [Light, Reflective, Reflective, Deeper, Deeper][slot % 5]
            && dressed.role == [Themed, Themed, Themed, Variety, Variety][slot % 5]
            && (item.tags != [] ==> dressed.tags == item.tags)
            && (item.tags == [] && theme.Some? ==> dressed.tags == [theme.value])
            && (item.tags == [] && theme.None? ==> dressed.tags == ["evergreen"])
  {
  }

  /** Five consecutive slots, starting with the first, meet the required mix. */
  lemma FiveSlotsMeetTheMix(group: seq<Candidate>)
    requires |group| == 5
    requires forall i :: 0 <= i < 5 ==> group[i].depth == FallbackDepth(i) && group[i].role == FallbackRole(i)
    ensures RequiredDailyMix(group)
  {
    CountOfFive(group, (c: Candidate) => c.role == Themed);
    CountOfFive(group, (c: Candidate) => c.role == Variety);
    CountOfFive(group, (c: Candidate) => c.depth == Light);
    CountOfFive(group, (c: Candidate) => c.depth == Reflective);
    CountOfFive(group, (c: Candidate) => c.depth == Deeper);
  }

  /** The safety and duplicate rules, which this model does not look into. */
  type Rules = (Candidate, seq<string>) -> bool

  /** The candidates that pass, each compared with the recent prompts and those passed before it. */
  function Accepted(batch: seq<Candidate>, seen: seq<string>, rules: Rules): seq<Candidate> {
    if batch == [] then []
    else if rules(batch[0], seen) then [batch[0]] + Accepted(batch[1..], seen + [batch[0].prompt], rules)
    else Accepted(batch[1..], seen, rules)
  }

  /**
   The next candidate of a batch is accepted exactly when it passes against the recent prompts and those
   accepted before it; a refused one leaves no trace.
   */
  lemma {:induction false} AcceptedNext(batch: seq<Candidate>, next: Candidate, recent: seq<string>, rules: Rules)
    ensures var before := Accepted(batch, recent, rules);
            Accepted(batch + [next], recent, rules)
            == before + if rules(next, recent + Prompts(before)) then [next] else []
  {
    if batch == [] {
      assert [next][1..] == [] && recent + Prompts([]) == recent;
    } else {
      var (first, rest) := (batch[0], batch[1..]);
      assert batch + [next] == [first] + (rest + [next]);
      if rules(first, recent) {
        AcceptedNext(rest, next, recent + [first.prompt], rules);
        var later := Accepted(rest, recent + [first.prompt], rules);
        assert recent + [first.prompt] + Prompts(later) == recent + Prompts([first] + later);
      } else {
        AcceptedNext(rest, next, recent, rules);
      }
    }
  }

  function Prompts(items: seq<Candidate>): (prompts: seq<string>)
    ensures |prompts| == |items| && forall i :: 0 <= i < |items| ==> prompts[i] == items[i].prompt
  {
    seq(|items|, i requires 0 <= i < |items| => items[i].prompt)
  }

  function AcceptedOf(batch: Option<seq<Candidate>>, recent: seq<string>, rules: Rules): seq<Candidate> {
    if batch.Some? then Accepted(batch.value, recent, rules) else []
  }

  function Having(items: seq<Candidate>, intimacy: bool): (kept: seq<Candidate>)
    ensures |kept| <= |items| && forall i :: 0 <= i < |kept| ==> kept[i] in items && kept[i].intimacy == intimacy
  {
    if items == [] then []
    else (if items[0].intimacy == intimacy then [items[0]] else []) + Having(items[1..], intimacy)
  }

  function IdSet(items: seq<Candidate>): set<Id> { set c | c in items :: c.id }

  /** Passes the rules in whatever slot it lands, and repeats no accepted or recent question. */
  predicate Usable(item: Candidate, accepted: set<Id>, recent: seq<string>, theme: Option<string>, rules: Rules) {
    && item.id !in accepted && item.prompt !in recent
    && forall slot :: 0 <= slot < 5 ==> rules(FallbackMetadata(item, slot, theme), recent)
  }

  function UsableIds(bank: seq<Candidate>, accepted: set<Id>, recent: seq<string>, theme: Option<string>, rules: Rules): set<Id> {
    set c | c in bank && Usable(c, accepted, recent, theme, rules) :: c.id
  }

  lemma {:induction false} IdsAreFew(items: seq<Candidate>)
    ensures |IdSet(items)| <= |items|
  {
    if items != [] {
      IdsAreFew(items[1..]);
      assert IdSet(items) == {items[0].id} + IdSet(items[1..]);
    }
  }

  lemma Included(small: set<Id>, large: set<Id>)
    requires small <= large
    ensures |small| <= |large|
  {
    assert large == small + (large - small);
  }

  /** A reviewed question of the bank, dressed for its slot, that passes the rules and repeats nothing. */
  ghost predicate FilledAt(item: Candidate, slot: nat, accepted: set<Id>, bank: seq<Candidate>, recent: seq<string>,
                           theme: Option<string>, rules: Rules) {
    && item.id !in accepted && item.prompt !in recent && rules(item, recent)
    && item.depth == FallbackDepth(slot) && item.role == FallbackRole(slot)
    && exists reviewed :: reviewed in bank && item == FallbackMetadata(reviewed, slot, theme)
  }

  /** The generated questions followed by fillings with new identities. */
  ghost predicate Filled(general: seq<Candidate>, generated: seq<Candidate>, accepted: set<Id>, bank: seq<Candidate>,
                         recent: seq<string>, theme: Option<string>, rules: Rules) {
    var m := |generated|;
    && generated <= general
    && (forall k :: m <= k < |general| ==> FilledAt(general[k], k - m, accepted, bank, recent, theme, rules))
    && (forall j, k :: m <= j < k < |general| ==> general[j].id != general[k].id)
  }

  /** The pool that results from going through the bank once, until it holds fourteen. */
  function Filling(general: seq<Candidate>, m: nat, used: set<Id>, bank: seq<Candidate>, recent: seq<string>,
                   theme: Option<string>, rules: Rules): seq<Candidate>
    requires m <= |general|
    decreases |bank|
  {
    if bank == [] || |general| >= PoolBound then general
    else
      var item := FallbackMetadata(bank[0], |general| - m, theme);
      if rules(item, recent) && item.id !in used && item.prompt !in recent
      then Filling(general + [item], m, used + {item.id}, bank[1..], recent, theme, rules)
      else Filling(general, m, used, bank[1..], recent, theme, rules)
  }

  /** Append dressed bank questions until the pool holds fourteen or the bank ends. */
  method FillFromBank(generated: seq<Candidate>, accepted: set<Id>, bank: seq<Candidate>, recent: seq<string>,
                      theme: Option<string>, rules: Rules)
    returns (general: seq<Candidate>)
    ensures general == Filling(generated, |generated|, accepted, bank, recent, theme, rules)
  {
    general := generated;
    var used, m := accepted, |generated|;
    for i := 0 to |bank|
      invariant m <= |general|
      invariant Filling(general, m, used, bank[i..], recent, theme, rules)
                == Filling(generated, m, accepted, bank, recent, theme, rules)
    {
      if |general| >= PoolBound { break; }
      FillingStep(general, m, used, bank, i, recent, theme, rules);
      var item := FallbackMetadata(bank[i], |general| - m, theme);
      if rules(item, recent) && item.id !in used && item.prompt !in recent {
        general := general + [item];
        used := used + {item.id};
      }
    }
  }

  lemma FillingStep(general: seq<Candidate>, m: nat, used: set<Id>, bank: seq<Candidate>, i: nat, recent: seq<string>,
                    theme: Option<string>, rules: Rules)
    requires m <= |general| < PoolBound && i < |bank|
    ensures Filling(general, m, used, bank[i..], recent, theme, rules)
            == var item := FallbackMetadata(bank[i], |general| - m, theme);
               if rules(item, recent) && item.id !in used && item.prompt !in recent
               then Filling(general + [item], m, used + {item.id}, bank[i + 1..], recent, theme, rules)
               else Filling(general, m, used, bank[i + 1..], recent, theme, rules)
  {
    assert bank[i..][0] == bank[i] && bank[i..][1..] == bank[i + 1..];
  }

  /** Every filling is a reviewed, safe and new question; short of fourteen, no usable identity is left out. */
  lemma FillingIsComplete(generated: seq<Candidate>, accepted: set<Id>, bank: seq<Candidate>, recent: seq<string>,
                          theme: Option<string>, rules: Rules)
    ensures var general := Filling(generated, |generated|, accepted, bank, recent, theme, rules);
            && Filled(general, generated, accepted, bank, recent, theme, rules)
            && (|general| < PoolBound ==>
                  UsableIds(bank, accepted, recent, theme, rules) <= IdSet(general[|generated|..]))
  {
    assert bank[0..] == bank && generated[|generated|..] == [];
    FillingFromHere(generated, generated, accepted, accepted, bank, 0, recent, theme, rules);
  }

  /** The bank is used in its order: what a beginning of it fills comes first, so the first usable ones are taken. */
  lemma {:induction false} FillingTakesTheFirst(general: seq<Candidate>, m: nat, used: set<Id>, bank: seq<Candidate>,
                                                i: nat, recent: seq<string>, theme: Option<string>, rules: Rules)
    requires m <= |general| && i <= |bank|
    ensures general <= Filling(general, m, used, bank[..i], recent, theme, rules)
    ensures Filling(general, m, used, bank[..i], recent, theme, rules)
            <= Filling(general, m, used, bank, recent, theme, rules)
    ensures |general| <= PoolBound ==> |Filling(general, m, used, bank, recent, theme, rules)| <= PoolBound
    decreases |bank|
  {
    if bank != [] && |general| < PoolBound {
      var item := FallbackMetadata(bank[0], |general| - m, theme);
      var rest, j: nat := bank[1..], if i == 0 then 0 else i - 1;
      if i > 0 { assert bank[..i][0] == bank[0] && bank[..i][1..] == rest[..j]; }
      if rules(item, recent) && item.id !in used && item.prompt !in recent {
        FillingTakesTheFirst(general + [item], m, used + {item.id}, rest, j, recent, theme, rules);
      } else {
        FillingTakesTheFirst(general, m, used, rest, j, recent, theme, rules);
      }
    }
  }

  /** The state of the fill before bank question `i`. */
  ghost predicate FilledSoFar(general: seq<Candidate>, generated: seq<Candidate>, accepted: set<Id>, used: set<Id>,
                              bank: seq<Candidate>, i: nat, recent: seq<string>, theme: Option<string>, rules: Rules) {
    && Filled(general, generated, accepted, bank, recent, theme, rules) && i <= |bank|
    && used == accepted + IdSet(general[|generated|..])
    && UsableIds(bank[..i], accepted, recent, theme, rules) <= IdSet(general[|generated|..])
  }

  lemma FillOneMore(general: seq<Candidate>, generated: seq<Candidate>, accepted: set<Id>, used: set<Id>,
                    bank: seq<Candidate>, i: nat, recent: seq<string>, theme: Option<string>, rules: Rules)
    requires FilledSoFar(general, generated, accepted, used, bank, i, recent, theme, rules) && i < |bank|
    ensures var item := FallbackMetadata(bank[i], |general| - |generated|, theme);
            if rules(item, recent) && item.id !in used && item.prompt !in recent
            then FilledSoFar(general + [item], generated, accepted, used + {item.id}, bank, i + 1, recent, theme, rules)
            else FilledSoFar(general, generated, accepted, used, bank, i + 1, recent, theme, rules)
  {
    var m := |generated|;
    var item := FallbackMetadata(bank[i], |general| - m, theme);
    StepCovers(general[m..], item, accepted, bank, i, |general| - m, recent, theme, rules);
    if rules(item, recent) && item.id !in used && item.prompt !in recent {
      assert (general + [item])[m..] == general[m..] + [item];
      FillOne(general, generated, accepted, bank, i, recent, theme, rules);
    }
  }

  lemma {:induction false} FillingFromHere(general: seq<Candidate>, generated: seq<Candidate>, accepted: set<Id>,
                                           used: set<Id>, bank: seq<Candidate>, i: nat, recent: seq<string>,
                                           theme: Option<string>, rules: Rules)
    requires FilledSoFar(general, generated, accepted, used, bank, i, recent, theme, rules)
    ensures var full := Filling(general, |generated|, used, bank[i..], recent, theme, rules);
            && Filled(full, generated, accepted, bank, recent, theme, rules)
            && (|full| < PoolBound ==> UsableIds(bank, accepted, recent, theme, rules) <= IdSet(full[|generated|..]))
    decreases |bank| - i
  {
    if i == |bank| {
      assert bank[..i] == bank;
    } else if |general| < PoolBound {
      var item := FallbackMetadata(bank[i], |general| - |generated|, theme);
      FillingStep(general, |generated|, used, bank, i, recent, theme, rules);
      FillOneMore(general, generated, accepted, used, bank, i, recent, theme, rules);
      if rules(item, recent) && item.id !in used && item.prompt !in recent {
        FillingFromHere(general + [item], generated, accepted, used + {item.id}, bank, i + 1, recent, theme, rules);
      } else {
        FillingFromHere(general, generated, accepted, used, bank, i + 1, recent, theme, rules);
      }
    }
  }

  /** A bank question is taken, or its identity is not needed: it is unusable or already covered. */
  lemma StepCovers(tail: seq<Candidate>, item: Candidate, accepted: set<Id>, bank: seq<Candidate>, i: nat, slot: nat,
                   recent: seq<string>, theme: Option<string>, rules: Rules)
    requires i < |bank| && item == FallbackMetadata(bank[i], slot, theme)
    requires UsableIds(bank[..i], accepted, recent, theme, rules) <= IdSet(tail)
    ensures IdSet(tail + [item]) == IdSet(tail) + {item.id}
    ensures UsableIds(bank[..i + 1], accepted, recent, theme, rules)
            <= if rules(item, recent) && item.id !in accepted + IdSet(tail) && item.prompt !in recent
               then IdSet(tail + [item]) else IdSet(tail)
  {
    UsableStep(bank, i, accepted, recent, theme, rules);
    IdSetStep(tail, item);
    if Usable(bank[i], accepted, recent, theme, rules) {
      assert item == FallbackMetadata(bank[i], slot % 5, theme);
    }
  }

  lemma FillOne(general: seq<Candidate>, generated: seq<Candidate>, accepted: set<Id>, bank: seq<Candidate>, i: nat,
                recent: seq<string>, theme: Option<string>, rules: Rules)
    requires Filled(general, generated, accepted, bank, recent, theme, rules) && i < |bank|
    requires var item := FallbackMetadata(bank[i], |general| - |generated|, theme);
             && rules(item, recent) && item.prompt !in recent
             && item.id !in accepted && item.id !in IdSet(general[|generated|..])
    ensures Filled(general + [FallbackMetadata(bank[i], |general| - |generated|, theme)], generated, accepted, bank,
                   recent, theme, rules)
  {
    var m := |generated|;
    var item := FallbackMetadata(bank[i], |general| - m, theme);
    assert FilledAt(item, |general| - m, accepted, bank, recent, theme, rules);
    forall j | m <= j < |general| ensures general[j].id != item.id {
      assert general[m..][j - m] in general[m..];
    }
  }

  lemma IdSetStep(items: seq<Candidate>, item: Candidate)
    ensures IdSet(items + [item]) == IdSet(items) + {item.id}
  {
    assert item in items + [item];
    forall id | id in IdSet(items) ensures id in IdSet(items + [item]) {
      var c :| c in items && c.id == id;
      assert c in items + [item];
    }
  }

  lemma UsableStep(bank: seq<Candidate>, i: nat, accepted: set<Id>, recent: seq<string>, theme: Option<string>, rules: Rules)
    requires i < |bank|
    ensures UsableIds(bank[..i + 1], accepted, recent, theme, rules)
            == UsableIds(bank[..i], accepted, recent, theme, rules)
               + if Usable(bank[i], accepted, recent, theme, rules) then {bank[i].id} else {}
  {
    assert bank[..i + 1] == bank[..i] + [bank[i]];
  }

  // ---------- the day's pool ----------

  datatype Pool = Pool(general: seq<Candidate>, intimacy: seq<Candidate>, fallbackReason: Option<string>)

  /** With at most nine generated questions, the first five fallbacks lie inside the searched pool. */
  lemma FallbackIsAdmissible(general: seq<Candidate>, m: nat)
    requires m <= 9 && m + 5 <= |general|
    requires forall k :: m <= k < m + 5 ==>
               general[k].depth == FallbackDepth(k - m) && general[k].role == FallbackRole(k - m)
    ensures exists g :: Admissible(general, g)
  {
    var group := Pick(general, FiveFrom(m));
    forall i | 0 <= i < 5
      ensures group[i].depth == FallbackDepth(i) && group[i].role == FallbackRole(i)
    {
      assert group[i] == general[m + i];
    }
    FiveSlotsMeetTheMix(group);
    FiveAreAChoice(m, Considered(general));
    assert Admissible(general, FiveFrom(m));
  }

  lemma FiveAreAChoice(m: nat, n: nat)
    requires m + 5 <= n
    ensures Choice(FiveFrom(m), 0, n, 5)
  {
  }

  function FiveFrom(m: nat): (g: seq<nat>)
    ensures |g| == 5 && forall i :: 0 <= i < 5 ==> g[i] == m + i
  {
    seq(5, i requires i >= 0 => m + i)
  }

  /** The bank as the calendar rotates it. */
  function Rotated(bank: seq<Candidate>, ordinal: nat): seq<Candidate>
    requires bank != []
  {
    var start := (ordinal * 5) % |bank|;
    bank[start..] + bank[..start]
  }

  /** The calendar starts five questions further every day, and goes around the whole bank. */
  lemma RotationStepsByFive(bank: seq<Candidate>, ordinal: nat, k: nat)
    requires k < |bank|
    ensures |Rotated(bank, ordinal)| == |bank|
    ensures Rotated(bank, ordinal)[k] == bank[(ordinal * 5 + k) % |bank|]
    ensures k + 5 < |bank| ==> Rotated(bank, ordinal + 1)[k] == Rotated(bank, ordinal)[k + 5]
  {
    var n := |bank|;
    WrapsAround(ordinal * 5, k, n);
    if k + 5 < n {
      WrapsAround(ordinal * 5, k + 5, n);
      WrapsAround((ordinal + 1) * 5, k, n);
      assert (ordinal + 1) * 5 + k == ordinal * 5 + (k + 5);
    }
  }

  lemma WrapsAround(start: nat, k: nat, n: nat)
    requires k < n
    ensures (start + k) % n == if start % n + k < n then start % n + k else start % n + k - n
  {
    var (q, r) := (start / n, start % n);
    DivMod(start, n);
    if r + k < n {
      RemainderIs(start + k, q, n, r + k);
    } else {
      assert (q + 1) * n == q * n + n;
      RemainderIs(start + k, q + 1, n, r + k - n);
    }
  }

  lemma RotationKeepsUsable(bank: seq<Candidate>, ordinal: nat, accepted: set<Id>, recent: seq<string>,
                            theme: Option<string>, rules: Rules)
    requires bank != []
    ensures UsableIds(Rotated(bank, ordinal), accepted, recent, theme, rules)
            == UsableIds(bank, accepted, recent, theme, rules)
  {
    var start := (ordinal * 5) % |bank|;
    assert bank == bank[..start] + bank[start..];
    assert forall c :: c in Rotated(bank, ordinal) <==> c in bank;
  }

  method Accept(batch: seq<Candidate>, recent: seq<string>, rules: Rules) returns (accepted: seq<Candidate>)
    ensures accepted == Accepted(batch, recent, rules)
  {
    accepted := [];
    var seen := recent;
    for i := 0 to |batch|
      invariant accepted + Accepted(batch[i..], seen, rules) == Accepted(batch, recent, rules)
    {
      assert batch[i..][1..] == batch[i + 1..];
      if rules(batch[i], seen) {
        accepted := accepted + [batch[i]];
        seen := seen + [batch[i].prompt];
      }
    }
  }

  /** Why a published pool fell short of its model batch. */
  function FallbackReason(failure: Option<string>, generatedBatch: bool, general: nat, noIntimacy: bool): Option<string> {
    if failure.None? && generatedBatch && (general < 5 || noIntimacy) then Some("insufficient_valid_candidates")
    else failure
  }

  /** The pool a day searches outside strict recovery. */
  function DayPool(accepted: seq<Candidate>, curated: seq<Candidate>, ordinal: nat, recent: seq<string>,
                   theme: Option<string>, rules: Rules): seq<Candidate>
    requires Having(curated, false) != []
  {
    var generated := Having(accepted, false);
    Filling(generated, |generated|, IdSet(accepted), Rotated(Having(curated, false), ordinal), recent, theme, rules)
  }

  /** Exactly when a day can be published outside strict recovery. */
  ghost predicate Publishable(accepted: seq<Candidate>, curated: seq<Candidate>, ordinal: nat, recent: seq<string>,
                              theme: Option<string>, rules: Rules) {
    && Having(curated, false) != []
    && (Having(accepted, true) != [] || Having(curated, true) != [])
    && MixPossible(DayPool(accepted, curated, ordinal, recent, theme, rules))
  }

  /** What a usable bank and an intimacy question guarantee. */
  predicate Stocked(accepted: seq<Candidate>, curated: seq<Candidate>, recent: seq<string>, theme: Option<string>, rules: Rules) {
    && |Having(accepted, false)| <= 9
    && |UsableIds(Having(curated, false), IdSet(accepted), recent, theme, rules)| >= 5
    && (Having(accepted, true) != [] || Having(curated, true) != [])
  }

  /** The pool filled for the search, outside strict recovery. */
  method FilledPool(accepted: seq<Candidate>, bank: seq<Candidate>, ordinal: nat, recent: seq<string>,
                    theme: Option<string>, rules: Rules)
    returns (general: seq<Candidate>)
    requires bank != []
    ensures general == Filling(Having(accepted, false), |Having(accepted, false)|, IdSet(accepted),
                               Rotated(bank, ordinal), recent, theme, rules)
    ensures Filled(general, Having(accepted, false), IdSet(accepted), bank, recent, theme, rules)
    ensures |Having(accepted, false)| <= 9 && |UsableIds(bank, IdSet(accepted), recent, theme, rules)| >= 5
            ==> |general| >= 5 && exists g :: Admissible(general, g)
  {
    var generated := Having(accepted, false);
    var m := |generated|;
    general := FillFromBank(generated, IdSet(accepted), Rotated(bank, ordinal), recent, theme, rules);
    FillingIsComplete(generated, IdSet(accepted), Rotated(bank, ordinal), recent, theme, rules);
    RotationKeepsUsable(bank, ordinal, IdSet(accepted), recent, theme, rules);
    FilledFromRotated(general, generated, IdSet(accepted), bank, ordinal, recent, theme, rules);
    if m <= 9 && |UsableIds(bank, IdSet(accepted), recent, theme, rules)| >= 5 {
      EnoughFilled(general, generated, IdSet(accepted), bank, recent, theme, rules);
    }
  }

  lemma FilledFromRotated(general: seq<Candidate>, generated: seq<Candidate>, accepted: set<Id>, bank: seq<Candidate>,
                          ordinal: nat, recent: seq<string>, theme: Option<string>, rules: Rules)
    requires bank != [] && Filled(general, generated, accepted, Rotated(bank, ordinal), recent, theme, rules)
    ensures Filled(general, generated, accepted, bank, recent, theme, rules)
  {
    var m := |generated|;
    forall k | m <= k < |general| ensures FilledAt(general[k], k - m, accepted, bank, recent, theme, rules) {
      assert FilledAt(general[k], k - m, accepted, Rotated(bank, ordinal), recent, theme, rules);
      var reviewed :| reviewed in Rotated(bank, ordinal) && general[k] == FallbackMetadata(reviewed, k - m, theme);
      assert reviewed in bank;
    }
  }

  lemma EnoughFilled(general: seq<Candidate>, generated: seq<Candidate>, accepted: set<Id>, bank: seq<Candidate>,
                     recent: seq<string>, theme: Option<string>, rules: Rules)
    requires Filled(general, generated, accepted, bank, recent, theme, rules)
    requires |generated| <= 9 && |UsableIds(bank, accepted, recent, theme, rules)| >= 5
    requires |general| < PoolBound ==> UsableIds(bank, accepted, recent, theme, rules) <= IdSet(general[|generated|..])
    ensures |general| >= 5 && exists g :: Admissible(general, g)
  {
    var m := |generated|;
    if |general| < PoolBound {
      Included(UsableIds(bank, accepted, recent, theme, rules), IdSet(general[m..]));
      IdsAreFew(general[m..]);
    }
    assert forall k :: m <= k < |general| ==> FilledAt(general[k], k - m, accepted, bank, recent, theme, rules);
    FallbackIsAdmissible(general, m);
  }

  predicate Faultless(accepted: seq<Candidate>, failure: Option<string>) {
    failure.None? && |Having(accepted, false)| >= 5 && Having(accepted, true) != []
  }

  /** Exactly when strict recovery can publish a day. */
  ghost predicate StrictlyPublishable(accepted: seq<Candidate>, failure: Option<string>) {
    Faultless(accepted, failure) && MixPossible(Having(accepted, false))
  }

  /** Strict recovery publishes only generated questions, or refuses. */
  method StrictPool(accepted: seq<Candidate>, failure: Option<string>)
    returns (r: Result<Pool, string>, ghost chosen: seq<nat>)
    ensures r.Ok? <==> StrictlyPublishable(accepted, failure)
    ensures r.Ok? ==> BestDay(r.value.general, Having(accepted, false), chosen, Having(accepted, false))
                      && r.value.intimacy == Having(accepted, true) && r.value.fallbackReason.None?
  {
    var generated, intimacy := Having(accepted, false), Having(accepted, true);
    chosen := [];
    if failure.Some? || |generated| < 5 || intimacy == [] {
      return Err("strict recovery refuses curated fallback"), [];
    }
    AdmissibleWhenMixPossible(generated);
    var day: Option<seq<Candidate>>;
    day, chosen := BalancedFive(generated, IdSet(generated));
    if day.None? { return Err("no admissible five"), []; }
    return Ok(Pool(day.value, intimacy, None)), chosen;
  }

  /** The best admissible five of a searched pool, with the required mix, asked from light to deeper. */
  ghost predicate BestDay(day: seq<Candidate>, searched: seq<Candidate>, chosen: seq<nat>, generated: seq<Candidate>) {
    && Optimal(searched, chosen, Scoring(IdSet(generated)))
    && day == OrderForConversation(Pick(searched, chosen))
    && RequiredDailyMix(day) && Ladder(day)
  }

  /** The day outside strict recovery: it fails exactly when no day can be published. */
  method OpenPool(accepted: seq<Candidate>, generatedBatch: bool, ordinal: nat, recent: seq<string>,
                  failure: Option<string>, curated: seq<Candidate>, theme: Option<string>, rules: Rules)
    returns (r: Result<Pool, string>, ghost searched: seq<Candidate>, ghost chosen: seq<nat>)
    ensures r.Ok? <==> Publishable(accepted, curated, ordinal, recent, theme, rules)
    ensures Stocked(accepted, curated, recent, theme, rules) ==> r.Ok?
    ensures r.Ok? ==>
              && BestDay(r.value.general, searched, chosen, Having(accepted, false)) && r.value.intimacy != []
              && Filled(searched, Having(accepted, false), IdSet(accepted), Having(curated, false), recent, theme, rules)
              && searched == DayPool(accepted, curated, ordinal, recent, theme, rules)
              && r.value.intimacy
                 == (if Having(accepted, true) != [] then Having(accepted, true)
                     else [Having(curated, true)[ordinal % |Having(curated, true)|]])
              && r.value.fallbackReason
                 == FallbackReason(failure, generatedBatch, |Having(accepted, false)|, Having(accepted, true) == [])
  {
    searched, chosen := [], [];
    var generated, intimacy, bank := Having(accepted, false), Having(accepted, true), Having(curated, false);
    if bank == [] { return Err("empty bank"), [], []; }
    var general := FilledPool(accepted, bank, ordinal, recent, theme, rules);
    AdmissibleWhenMixPossible(general);
    if |general| < 5 {
      if g :| Admissible(general, g) { FiveNeedFive(general, g); }
      return Err("fewer than five general questions"), [], [];
    }
    var noIntimacy := intimacy == [];
    if noIntimacy {
      var intimacyBank := Having(curated, true);
      if intimacyBank == [] { return Err("empty intimacy bank"), [], []; }
      intimacy := [intimacyBank[ordinal % |intimacyBank|]];
    }
    var reason := FallbackReason(failure, generatedBatch, |generated|, noIntimacy);
    var day: Option<seq<Candidate>>;
    day, chosen := BalancedFive(general, IdSet(generated));
    if day.None? { return Err("no admissible five"), [], []; }
    return Ok(Pool(day.value, intimacy, reason)), general, chosen;
  }

  lemma FiveNeedFive(candidates: seq<Candidate>, g: seq<nat>)
    requires Admissible(candidates, g)
    ensures |candidates| >= 5
  {
    assert g[0] < g[1] < g[2] < g[3] < g[4] < |candidates|;
  }

  /**
     The day's pool. Strict recovery publishes only generated questions, and outside it a stocked bank
     means the selection cannot fail; in both cases failure is exactly the stated shortage. What is
     published is the best day of the searched pool.
   */
  method SelectPool(ordinal: nat, batch: Option<seq<Candidate>>, recent: seq<string>, strict: bool,
                    failure: Option<string>, curated: seq<Candidate>, theme: Option<string>, rules: Rules)
    returns (r: Result<Pool, string>, ghost searched: seq<Candidate>, ghost chosen: seq<nat>)
    ensures r.Ok? <==> if strict then StrictlyPublishable(AcceptedOf(batch, recent, rules), failure)
                       else Publishable(AcceptedOf(batch, recent, rules), curated, ordinal, recent, theme, rules)
    ensures !strict && Stocked(AcceptedOf(batch, recent, rules), curated, recent, theme, rules) ==> r.Ok?
    ensures r.Ok? ==>
              var day := r.value.general;
              && |day| == 5 && r.value.intimacy != []
              && day[0].depth == Light && day[1].depth == day[2].depth == Reflective
              && day[3].depth == day[4].depth == Deeper
              && Matching(day, (c: Candidate) => c.role == Themed) == 3
              && Matching(day, (c: Candidate) => c.role == Variety) == 2
    ensures r.Ok? ==>
              var accepted := AcceptedOf(batch, recent, rules);
              r.value.fallbackReason
              == if strict then None
                 else if failure.Some? then failure
                 else if batch.Some? && (|Having(accepted, false)| < 5 || Having(accepted, true) == [])
                 then Some("insufficient_valid_candidates")
                 else None
    ensures r.Ok? && (strict || Having(AcceptedOf(batch, recent, rules), true) != [])
            ==> r.value.intimacy == Having(AcceptedOf(batch, recent, rules), true)
    ensures r.Ok? ==> BestDay(r.value.general, searched, chosen, Having(AcceptedOf(batch, recent, rules), false))
    ensures r.Ok? ==>
              var accepted := AcceptedOf(batch, recent, rules);
              if strict then searched == Having(accepted, false)
              else && (Having(accepted, true) == [] ==>
                         |r.value.intimacy| == 1 && r.value.intimacy[0] in curated && r.value.intimacy[0].intimacy
                         && r.value.intimacy[0] == Having(curated, true)[ordinal % |Having(curated, true)|])
                   && searched == DayPool(accepted, curated, ordinal, recent, theme, rules)
                   && Filled(searched, Having(accepted, false), IdSet(accepted), Having(curated, false), recent, theme, rules)
  {
    var accepted: seq<Candidate> := [];
    if batch.Some? { accepted := Accept(batch.value, recent, rules); }
    if strict {
      searched := Having(accepted, false);
      r, chosen := StrictPool(accepted, failure);
    } else {
      r, searched, chosen := OpenPool(accepted, batch.Some?, ordinal, recent, failure, curated, theme, rules);
    }
  }

  // ---------- a batch that leaves too few slots ----------

  lemma {:induction false} NoneMatch(pool: seq<Candidate>, holds: Candidate -> bool)
    requires forall i :: 0 <= i < |pool| ==> !holds(pool[i])
    ensures Matching(pool, holds) == 0
  {
    if pool != [] {
      var rest := pool[1..];
      assert forall i :: 0 <= i < |rest| ==> rest[i] == pool[i + 1];
      NoneMatch(rest, holds);
    }
  }

  /** Ten generated questions leave four slots, of which one is deeper: without a deeper one of their own, no day. */
  lemma TenWithoutDeeperFail(accepted: seq<Candidate>, curated: seq<Candidate>, ordinal: nat, recent: seq<string>,
                             theme: Option<string>, rules: Rules)
    requires |Having(accepted, false)| >= 10
    requires forall i :: 0 <= i < |Having(accepted, false)| ==> Having(accepted, false)[i].depth != Deeper
    ensures !Publishable(accepted, curated, ordinal, recent, theme, rules)
  {
    if Having(curated, false) != [] {
      var (generated, bank) := (Having(accepted, false), Rotated(Having(curated, false), ordinal));
      FillingIsComplete(generated, IdSet(accepted), bank, recent, theme, rules);
      FewAreDeeper(DayPool(accepted, curated, ordinal, recent, theme, rules), generated, IdSet(accepted), bank, recent, theme, rules);
    }
  }

  lemma FewAreDeeper(general: seq<Candidate>, generated: seq<Candidate>, accepted: set<Id>, bank: seq<Candidate>,
                     recent: seq<string>, theme: Option<string>, rules: Rules)
    requires Filled(general, generated, accepted, bank, recent, theme, rules) && |generated| >= 10
    requires forall i :: 0 <= i < |generated| ==> generated[i].depth != Deeper
    ensures !MixPossible(general)
  {
    var (m, pool) := (|generated|, general[..Considered(general)]);
    var c := if |pool| < m + 3 then |pool| else m + 3;
    var deeper := (x: Candidate) => x.depth == Deeper;
    forall k | 0 <= k < c ensures pool[..c][k].depth != Deeper {
      if k < m {
        assert general[k] == generated[k];
      } else {
        assert FilledAt(general[k], k - m, accepted, bank, recent, theme, rules);
      }
    }
    NoneMatch(pool[..c], deeper);
    assert pool == pool[..c] + pool[c..];
    MatchingOfAppend(pool[..c], pool[c..], deeper);
    forall l: nat, r: nat, d: nat ensures SuppliesDay(pool, l, r, d) ==> Matching(pool, deeper) >= 2 {
      if SuppliesDay(pool, l, r, d) { DayNeedsTwoDeeper(pool, l, r, d); }
    }
  }

  lemma DayNeedsTwoDeeper(pool: seq<Candidate>, light: nat, reflective: nat, deeper: nat)
    requires SuppliesDay(pool, light, reflective, deeper)
    ensures Matching(pool, (x: Candidate) => x.depth == Deeper) >= 2
  {
    var w := DayWants(light, reflective, deeper);
    MatchingSplits(pool, (x: Candidate) => x.depth == Deeper, InCell(Themed, Deeper), InCell(Variety, Deeper));
    assert Cell(pool, Themed, Deeper) >= Want(w, Themed, Deeper) && Cell(pool, Variety, Deeper) >= Want(w, Variety, Deeper);
  }
}
