/** Random samples of a benchmark that are balanced over its groups. */
module Sampling {
  datatype Row = Row(id: nat, category: string)

  /** A seeded generator: its state is the seed and what it has shuffled so far. */
  datatype Rng = Rng(seed: int, lengths: seq<nat>)

  function Fresh(seed: int): Rng { Rng(seed, []) }

  function Next(rng: Rng, n: nat): Rng { rng.(lengths := rng.lengths + [n]) }

  /** The shuffles: whatever they do is determined by the state and the list, and permutes the list. */
  datatype Shuffles = Shuffles(names: (Rng, seq<string>) -> seq<string>, rows: (Rng, seq<Row>) -> seq<Row>)

  ghost predicate Permute(s: Shuffles)
  {
    && (forall rng, list :: multiset(s.names(rng, list)) == multiset(list))
    && (forall rng, list :: multiset(s.rows(rng, list)) == multiset(list))
  }

  predicate Distinct(names: seq<string>) { forall i, j :: 0 <= i < j < |names| ==> names[i] != names[j] }

  // ---------- Targets ----------

  /** The order in which groups are drawn from. */
  function Order(s: Shuffles, groups: seq<string>, seed: int): seq<string> { s.names(Fresh(seed), groups) }

  function TargetOf(group: string, order: seq<string>, count: nat): nat
    requires order != []
  {
    count / |order| + if group in order[..count % |order|] then 1 else 0
  }

  /** Each group's share of the sample; the groups first in the seed's order get one more. */
  method BalancedTargets(s: Shuffles, groups: seq<string>, count: nat, seed: int) returns (targets: map<string, nat>)
    requires Permute(s) && groups != []
    ensures var order := Order(s, groups, seed);
            |order| == |groups| && targets.Keys == (set g | g in groups) &&
            forall g :: g in groups ==> targets[g] == TargetOf(g, order, count)
  {
    var order := s.names(Fresh(seed), groups);
    SameLength(order, groups);
    var base, larger := count / |groups|, order[..count % |groups|];
    targets := map g | g in groups :: base + if g in larger then 1 else 0;
    assert forall g :: TargetOf(g, order, count) == base + if g in larger then 1 else 0;
  }

  lemma SameLength<T>(a: seq<T>, b: seq<T>)
    requires multiset(a) == multiset(b)
    ensures |a| == |b|
  {
    assert |multiset(a)| == |a| && |multiset(b)| == |b|;
  }

  // ---------- Conservation ----------

  type Groups = map<string, seq<Row>>

  /** How often a row is held by the first n named groups. */
  function Held(names: seq<string>, groups: Groups, n: nat, x: Row): nat
    requires n <= |names|
  {
    if n == 0 then 0
    else Held(names, groups, n - 1, x) + if names[n - 1] in groups then multiset(groups[names[n - 1]])[x] else 0
  }

  lemma {:induction false} HeldUpdate(names: seq<string>, groups: Groups, j: nat, list: seq<Row>, n: nat, x: Row)
    requires n <= |names| && j < |names| && Distinct(names) && names[j] in groups
    ensures n <= j ==> Held(names, groups[names[j] := list], n, x) == Held(names, groups, n, x)
    ensures j < n ==>
              Held(names, groups[names[j] := list], n, x) + multiset(groups[names[j]])[x] ==
              Held(names, groups, n, x) + multiset(list)[x]
  {
    if n > 0 { HeldUpdate(names, groups, j, list, n - 1, x); }
  }

  /** Group by group, one holds no more than the other. */
  ghost predicate HoldsLess(names: seq<string>, a: Groups, b: Groups)
  {
    forall i :: 0 <= i < |names| ==> names[i] in a && names[i] in b && multiset(a[names[i]]) <= multiset(b[names[i]])
  }

  lemma {:induction false} HeldLess(names: seq<string>, a: Groups, b: Groups, n: nat, x: Row)
    requires n <= |names| && HoldsLess(names, a, b)
    ensures Held(names, a, n, x) <= Held(names, b, n, x)
  {
    if n > 0 { HeldLess(names, a, b, n - 1, x); }
  }

  // ---------- Grouping ----------

  /** Every group holds only rows of its own. */
  ghost predicate Sorted(groups: Groups, groupFor: Row -> string)
  {
    forall g :: g in groups ==> AllIn(groups[g], g, groupFor)
  }

  ghost predicate AllIn(rows: seq<Row>, g: string, groupFor: Row -> string)
  {
    forall i :: 0 <= i < |rows| ==> groupFor(rows[i]) == g
  }

  function Members(rows: seq<Row>, g: string, groupFor: Row -> string): seq<Row>
  {
    if rows == [] then []
    else Members(rows[..|rows| - 1], g, groupFor) + if groupFor(rows[|rows| - 1]) == g then [rows[|rows| - 1]] else []
  }

  ghost predicate GroupsOf(groups: Groups, rows: seq<Row>, names: seq<string>, groupFor: Row -> string)
  {
    && (forall g :: g in groups <==> g in names)
    && (forall g :: g in groups ==> groups[g] == Members(rows, g, groupFor))
  }

  method GroupRows(rows: seq<Row>, names: seq<string>, groupFor: Row -> string) returns (groups: Groups)
    ensures GroupsOf(groups, rows, names, groupFor)
  {
    groups := map g | g in names :: [];
    for n := 0 to |rows|
      invariant GroupsOf(groups, rows[..n], names, groupFor)
    {
      var g := groupFor(rows[n]);
      assert rows[..n + 1][..n] == rows[..n];
      if g in groups { groups := groups[g := groups[g] + [rows[n]]]; }
    }
    assert rows[..|rows|] == rows;
  }

  lemma {:induction false} MembersIn(rows: seq<Row>, g: string, groupFor: Row -> string)
    ensures AllIn(Members(rows, g, groupFor), g, groupFor)
  {
    if rows != [] { MembersIn(rows[..|rows| - 1], g, groupFor); }
  }

  ghost predicate NotAmong(names: seq<string>, n: nat, g: string)
    requires n <= |names|
  {
    forall i :: 0 <= i < n ==> names[i] != g
  }

  /** The row is m times in its own group, and in no other. */
  ghost predicate InOneGroup(names: seq<string>, groups: Groups, x: Row, own: string, m: nat)
  {
    forall i :: 0 <= i < |names| ==>
      names[i] in groups && multiset(groups[names[i]])[x] == if names[i] == own then m else 0
  }

  lemma {:induction false} HeldOnce(names: seq<string>, groups: Groups, n: nat, x: Row, own: string, m: nat)
    requires n <= |names| && Distinct(names) && InOneGroup(names, groups, x, own, m)
    ensures Held(names, groups, n, x) <= m
    ensures NotAmong(names, n, own) ==> Held(names, groups, n, x) == 0
  {
    if n > 0 {
      HeldOnce(names, groups, n - 1, x, own, m);
      if names[n - 1] == own { assert NotAmong(names, n - 1, own); }
    }
  }

  /** Grouping uses no row twice. */
  lemma GroupedOnce(rows: seq<Row>, names: seq<string>, groups: Groups, groupFor: Row -> string, x: Row)
    requires Distinct(names) && GroupsOf(groups, rows, names, groupFor)
    ensures Held(names, groups, |names|, x) <= multiset(rows)[x]
  {
    forall i | 0 <= i < |names|
      ensures names[i] in groups
      ensures multiset(groups[names[i]])[x] == if names[i] == groupFor(x) then multiset(rows)[x] else 0
    {
      MemberCount(rows, names[i], groupFor, x);
    }
    HeldOnce(names, groups, |names|, x, groupFor(x), multiset(rows)[x]);
  }

  lemma {:induction false} MemberCount(rows: seq<Row>, g: string, groupFor: Row -> string, x: Row)
    ensures multiset(Members(rows, g, groupFor))[x] == if groupFor(x) == g then multiset(rows)[x] else 0
  {
    if rows != [] {
      var n := |rows| - 1;
      MemberCount(rows[..n], g, groupFor, x);
      assert rows == rows[..n] + [rows[n]];
    }
  }

  // ---------- Drawing in turn ----------

  /** The sizes of the groups still to draw from: q each, and one more for the first rem of them. */
  datatype Shares = Shares(q: nat, rem: nat)

  function ShareAt(s: Shares, j: nat): nat { s.q + if j < s.rem then 1 else 0 }

  ghost predicate TakenRight(order: seq<string>, taken: Groups, s: Shares)
  {
    && order != [] && Distinct(order) && s.rem < |order|
    && (forall j :: 0 <= j < |order| ==> order[j] in taken && |taken[order[j]]| == ShareAt(s, j))
  }

  /** The row is the one drawn from the group after d others. */
  ghost predicate PickedFrom(taken: Groups, g: string, d: nat, row: Row)
  {
    g in taken && d < |taken[g]| && row == taken[g][|taken[g]| - 1 - d]
  }

  /** Whose turn it is at place p, and in which round. */
  function TurnAt(p: nat, g: nat): (j: nat)
    requires g > 0
    ensures j < g
  {
    p % g
  }

  function RoundAt(p: nat, g: nat): nat
    requires g > 0
  {
    p / g
  }

  /** At place p it is the turn of the group at p mod g, for the time p / g. */
  ghost predicate Picked(order: seq<string>, taken: Groups, p: nat, row: Row)
    requires order != []
  {
    PickedFrom(taken, order[TurnAt(p, |order|)], RoundAt(p, |order|), row)
  }

  ghost predicate Drawn(result: seq<Row>, order: seq<string>, taken: Groups)
    requires order != []
  {
    forall p :: 0 <= p < |result| ==> Picked(order, taken, p, result[p])
  }

  function Left(size: nat, drawn: nat): nat { if drawn < size then size - drawn else 0 }

  /** Before the turn of group j in round k, each group has lost a row in every round. */
  ghost predicate LeftOf(order: seq<string>, taken: Groups, selected: Groups, k: nat, j: nat)
  {
    forall i :: 0 <= i < |order| ==>
      order[i] in taken && order[i] in selected &&
      selected[order[i]] == taken[order[i]][..Left(|taken[order[i]]|, k + if i < j then 1 else 0)]
  }

  /** No row is lost or doubled. */
  ghost predicate Conserved(result: seq<Row>, order: seq<string>, selected: Groups, taken: Groups)
  {
    forall x :: multiset(result)[x] + Held(order, selected, |order|, x) == Held(order, taken, |order|, x)
  }

  /** How many rows have been drawn before that turn. */
  function DrawnBefore(s: Shares, g: nat, k: nat, j: nat): nat
  {
    k * g + if k < s.q || j < s.rem then j else s.rem
  }

  lemma AtLeastOnce(d: nat, g: nat)
    requires d >= 1
    ensures d * g >= g
  {
    assert d * g == (d - 1) * g + g;
  }

  lemma DivisionUnique(n: nat, g: nat, q: nat, r: nat)
    requires r < g && n == q * g + r
    ensures n / g == q && n % g == r
  {
    var a, b := n / g, n % g;
    assert n == a * g + b;
    if a < q {
      assert (q - a) * g == q * g - a * g;
      AtLeastOnce(q - a, g);
    } else if q < a {
      assert (a - q) * g == a * g - q * g;
      AtLeastOnce(a - q, g);
    }
  }

  lemma TurnOf(g: nat, k: nat, j: nat)
    requires j < g
    ensures (k * g + j) / g == k && (k * g + j) % g == j
  {
    DivisionUnique(k * g + j, g, k, j);
  }

  ghost predicate Drawing(order: seq<string>, taken: Groups, s: Shares, selected: Groups, result: seq<Row>, k: nat,
                          j: nat)
  {
    && TakenRight(order, taken, s) && j <= |order| && k <= s.q
    && |result| == DrawnBefore(s, |order|, k, j)
    && Drawn(result, order, taken) && LeftOf(order, taken, selected, k, j) && Conserved(result, order, selected, taken)
  }

  lemma PopLeft(order: seq<string>, taken: Groups, s: Shares, selected: Groups, k: nat, j: nat)
    requires TakenRight(order, taken, s) && LeftOf(order, taken, selected, k, j) && j < |order| && k < ShareAt(s, j)
    ensures var list := selected[order[j]];
            && |list| == ShareAt(s, j) - k
            && list[|list| - 1] == taken[order[j]][ShareAt(s, j) - 1 - k]
            && LeftOf(order, taken, selected[order[j] := list[..|list| - 1]], k, j + 1)
  {
    var list := selected[order[j]];
    assert list == taken[order[j]][..ShareAt(s, j) - k];
    var after := selected[order[j] := list[..|list| - 1]];
    forall i | 0 <= i < |order|
      ensures order[i] in taken && order[i] in after &&
              after[order[i]] == taken[order[i]][..Left(|taken[order[i]]|, k + if i < j + 1 then 1 else 0)]
    {
      if i < j { assert order[i] != order[j]; }
      if j < i { assert order[j] != order[i]; }
    }
  }

  lemma PopConserves(result: seq<Row>, order: seq<string>, selected: Groups, taken: Groups, j: nat)
    requires Distinct(order) && j < |order| && order[j] in selected && selected[order[j]] != []
    requires Conserved(result, order, selected, taken)
    ensures var list := selected[order[j]];
            Conserved(result + [list[|list| - 1]], order, selected[order[j] := list[..|list| - 1]], taken)
  {
    var list := selected[order[j]];
    var rest, row := list[..|list| - 1], list[|list| - 1];
    assert list == rest + [row];
    forall x
      ensures multiset(result + [row])[x] + Held(order, selected[order[j] := rest], |order|, x) ==
              Held(order, taken, |order|, x)
    {
      HeldUpdate(order, selected, j, rest, |order|, x);
      assert multiset(result)[x] + Held(order, selected, |order|, x) == Held(order, taken, |order|, x);
    }
  }

  lemma PickNext(order: seq<string>, taken: Groups, s: Shares, result: seq<Row>, k: nat, j: nat, row: Row)
    requires TakenRight(order, taken, s) && Drawn(result, order, taken) && j < |order| && k < ShareAt(s, j)
    requires |result| == k * |order| + j && row == taken[order[j]][ShareAt(s, j) - 1 - k]
    ensures Drawn(result + [row], order, taken)
  {
    TurnOf(|order|, k, j);
    assert Picked(order, taken, |result|, row);
  }

  /** One turn: the last row of the group, if it has any left. */
  method DrawOne(order: seq<string>, ghost taken: Groups, ghost s: Shares, before: Groups, rows: seq<Row>,
                 ghost k: nat, j: nat)
    returns (selected: Groups, result: seq<Row>)
    requires Drawing(order, taken, s, before, rows, k, j) && j < |order|
    ensures Drawing(order, taken, s, selected, result, k, j + 1)
  {
    selected, result := before, rows;
    var g := order[j];
    assert before[g] == taken[g][..Left(|taken[g]|, k)];
    if before[g] != [] {
      PopLeft(order, taken, s, before, k, j);
      PopConserves(rows, order, before, taken, j);
      PickNext(order, taken, s, rows, k, j, before[g][|before[g]| - 1]);
      selected := before[g := before[g][..|before[g]| - 1]];
      result := rows + [before[g][|before[g]| - 1]];
    } else {
      NothingLeft(order, taken, s, before, k, j);
    }
  }

  lemma NothingLeft(order: seq<string>, taken: Groups, s: Shares, selected: Groups, k: nat, j: nat)
    requires TakenRight(order, taken, s) && LeftOf(order, taken, selected, k, j) && j < |order| &&
             selected[order[j]] == []
    ensures LeftOf(order, taken, selected, k, j + 1)
  {
    forall i | 0 <= i < |order|
      ensures selected[order[i]] == taken[order[i]][..Left(|taken[order[i]]|, k + if i < j + 1 then 1 else 0)]
    {
      assert selected[order[i]] == taken[order[i]][..Left(|taken[order[i]]|, k + if i < j then 1 else 0)];
    }
  }

  /** One round over all groups. */
  method DrawRound(order: seq<string>, ghost taken: Groups, ghost s: Shares, before: Groups, rows: seq<Row>,
                   ghost k: nat)
    returns (selected: Groups, result: seq<Row>)
    requires Drawing(order, taken, s, before, rows, k, 0)
    ensures Drawing(order, taken, s, selected, result, k, |order|)
  {
    selected, result := before, rows;
    for j := 0 to |order|
      invariant Drawing(order, taken, s, selected, result, k, j)
    {
      selected, result := DrawOne(order, taken, s, selected, result, k, j);
    }
  }

  lemma NextRound(order: seq<string>, taken: Groups, s: Shares, selected: Groups, result: seq<Row>, k: nat)
    requires Drawing(order, taken, s, selected, result, k, |order|) && k < s.q
    ensures Drawing(order, taken, s, selected, result, k + 1, 0)
  {
    assert (k + 1) * |order| == k * |order| + |order|;
    forall i | 0 <= i < |order|
      ensures selected[order[i]] == taken[order[i]][..Left(|taken[order[i]]|, k + 1 + if i < 0 then 1 else 0)]
    {
      assert selected[order[i]] == taken[order[i]][..Left(|taken[order[i]]|, k + if i < |order| then 1 else 0)];
    }
  }

  lemma RoundsFit(g: nat, k: nat, s: Shares)
    requires k <= s.q && s.rem < g
    ensures k * g <= s.q * g
    ensures k < s.q ==> k * g < s.q * g
  {
    assert (s.q - k) * g == s.q * g - k * g;
    if k < s.q { AtLeastOnce(s.q - k, g); }
  }

  /** Draws round by round until there are enough. */
  method DrawAll(order: seq<string>, taken: Groups, ghost s: Shares, count: nat) returns (result: seq<Row>)
    requires TakenRight(order, taken, s) && count == s.q * |order| + s.rem
    ensures |result| == count && Drawn(result, order, taken)
    ensures forall x :: multiset(result)[x] <= Held(order, taken, |order|, x)
  {
    result := [];
    var selected := taken;
    ghost var k := 0;
    AllLeft(order, taken);
    while |result| < count
      invariant |result| <= count
      invariant Drawing(order, taken, s, selected, result, k, 0) ||
                (|result| == count && Drawn(result, order, taken) && Conserved(result, order, selected, taken))
      decreases count - |result|
    {
      RoundsFit(|order|, k, s);
      selected, result := DrawRound(order, taken, s, selected, result, k);
      if k < s.q {
        NextRound(order, taken, s, selected, result, k);
        RoundsFit(|order|, k + 1, s);
        k := k + 1;
      }
    }
    forall x
      ensures multiset(result)[x] <= Held(order, taken, |order|, x)
    {
      assert Conserved(result, order, selected, taken);
    }
  }

  lemma AllLeft(order: seq<string>, taken: Groups)
    requires forall i :: 0 <= i < |order| ==> order[i] in taken
    ensures LeftOf(order, taken, taken, 0, 0) && Conserved([], order, taken, taken)
  {
  }
}
