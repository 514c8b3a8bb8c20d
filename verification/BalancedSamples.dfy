/** The balanced random sample: what it consists of, and how balanced its prefixes are. */
module BalancedSamples {
  import opened Options
  import opened Sampling

  // ---------- Permutations ----------

  lemma {:induction false} DistinctCount(names: seq<string>, x: string)
    requires Distinct(names)
    ensures multiset(names)[x] <= 1
    ensures (forall i :: 0 <= i < |names| ==> names[i] != x) ==> multiset(names)[x] == 0
  {
    if names != [] {
      var n := |names| - 1;
      assert names == names[..n] + [names[n]];
      DistinctCount(names[..n], x);
    }
  }

  lemma TwiceCount(names: seq<string>, i: nat, j: nat)
    requires i < j < |names| && names[i] == names[j]
    ensures multiset(names)[names[i]] >= 2
  {
    assert names == names[..j] + names[j..];
    assert names[..j][i] in multiset(names[..j]);
    assert names[j..][0] in multiset(names[j..]);
  }

  lemma DistinctPermuted(a: seq<string>, b: seq<string>)
    requires multiset(a) == multiset(b) && Distinct(b)
    ensures Distinct(a) && |a| == |b| && forall x :: x in a <==> x in b
  {
    SameLength(a, b);
    forall i, j | 0 <= i < j < |a|
      ensures a[i] != a[j]
    {
      DistinctCount(b, a[i]);
      if a[i] == a[j] { TwiceCount(a, i, j); }
    }
    forall x
      ensures x in a <==> x in b
    {
      assert x in a <==> x in multiset(a);
      assert x in b <==> x in multiset(b);
    }
  }

  lemma AllInPermuted(a: seq<Row>, b: seq<Row>, g: string, groupFor: Row -> string)
    requires multiset(a) == multiset(b) && AllIn(b, g, groupFor)
    ensures AllIn(a, g, groupFor)
  {
    forall i | 0 <= i < |a|
      ensures groupFor(a[i]) == g
    {
      assert a[i] in multiset(a) && a[i] in multiset(b);
      assert a[i] in b;
    }
  }

  lemma AmongFirst(order: seq<string>, n: nat, j: nat)
    requires Distinct(order) && n <= |order| && j < |order|
    ensures order[j] in order[..n] <==> j < n
  {
    if order[j] in order[..n] {
      var i :| 0 <= i < n && order[..n][i] == order[j];
      assert order[i] == order[j];
    }
    if j < n { assert order[..n][j] == order[j]; }
  }

  // ---------- Shuffling the groups ----------

  /** The generator after it has shuffled the first n groups. */
  function RngAt(rng: Rng, names: seq<string>, groups: Groups, n: nat): Rng
    requires n <= |names|
  {
    if n == 0 then rng
    else Next(RngAt(rng, names, groups, n - 1), if names[n - 1] in groups then |groups[names[n - 1]]| else 0)
  }

  function Shuffled(s: Shuffles, rng: Rng, names: seq<string>, groups: Groups, n: nat): (r: Groups)
    requires n <= |names| && forall i :: 0 <= i < |names| ==> names[i] in groups
    ensures r.Keys == groups.Keys
  {
    if n == 0 then groups
    else
      var rows := s.rows(RngAt(rng, names, groups, n - 1), groups[names[n - 1]]);
      Shuffled(s, rng, names, groups, n - 1)[names[n - 1] := rows]
  }

  lemma {:induction false} ShuffledPermutes(s: Shuffles, rng: Rng, names: seq<string>, groups: Groups, n: nat,
                                            g: string)
    requires n <= |names| && (forall i :: 0 <= i < |names| ==> names[i] in groups) && Permute(s) && g in groups
    ensures multiset(Shuffled(s, rng, names, groups, n)[g]) == multiset(groups[g])
  {
    if n > 0 { ShuffledPermutes(s, rng, names, groups, n - 1, g); }
  }

  lemma {:induction false} NotShuffledYet(s: Shuffles, rng: Rng, names: seq<string>, groups: Groups, n: nat, j: nat)
    requires n <= j < |names| && (forall i :: 0 <= i < |names| ==> names[i] in groups) && Distinct(names)
    ensures Shuffled(s, rng, names, groups, n)[names[j]] == groups[names[j]]
  {
    if n > 0 { NotShuffledYet(s, rng, names, groups, n - 1, j); }
  }

  lemma ShuffleNext(s: Shuffles, rng: Rng, names: seq<string>, groups: Groups, n: nat)
    requires n < |names| && (forall i :: 0 <= i < |names| ==> names[i] in groups) && Distinct(names)
    ensures var before := Shuffled(s, rng, names, groups, n);
            var list := before[names[n]];
            && Shuffled(s, rng, names, groups, n + 1) == before[names[n] := s.rows(RngAt(rng, names, groups, n), list)]
            && RngAt(rng, names, groups, n + 1) == Next(RngAt(rng, names, groups, n), |list|)
  {
    NotShuffledYet(s, rng, names, groups, n, n);
  }

  /** Before a group is shuffled, the generator has shuffled exactly the groups before it. */
  lemma {:induction false} RngRemembers(rng: Rng, names: seq<string>, groups: Groups, n: nat, k: nat)
    requires k < n <= |names| && forall i :: 0 <= i < |names| ==> names[i] in groups
    ensures var after := RngAt(rng, names, groups, n);
            && after.seed == rng.seed && |after.lengths| == |rng.lengths| + n
            && after.lengths[..|rng.lengths|] == rng.lengths
            && after.lengths[|rng.lengths| + k] == |groups[names[k]]|
  {
    if n > 1 { RngRemembers(rng, names, groups, n - 1, if k < n - 1 then k else 0); }
  }

  method ShuffleGroups(s: Shuffles, start: Rng, names: seq<string>, groups: Groups) returns (shuffled: Groups)
    requires Distinct(names) && forall i :: 0 <= i < |names| ==> names[i] in groups
    ensures shuffled == Shuffled(s, start, names, groups, |names|)
  {
    shuffled := groups;
    var rng := start;
    for n := 0 to |names|
      invariant shuffled == Shuffled(s, start, names, groups, n) && rng == RngAt(start, names, groups, n)
    {
      ShuffleNext(s, start, names, groups, n);
      var list := shuffled[names[n]];
      shuffled := shuffled[names[n] := s.rows(rng, list)];
      rng := Next(rng, |list|);
    }
  }

  // ---------- The sample ----------

  datatype Request = Request(groupFor: Row -> string, names: seq<string>, count: nat, seed: int)

  function MembersOf(rows: seq<Row>, q: Request): Groups
  {
    map g | g in q.names :: Members(rows, g, q.groupFor)
  }

  /** The groups in the order, and with the rows, that the seed gives. */
  function OrderFor(s: Shuffles, q: Request): seq<string> { Order(s, q.names, q.seed) }

  function ShuffledFor(s: Shuffles, rows: seq<Row>, q: Request): Groups
  {
    Shuffled(s, Next(Fresh(q.seed), |q.names|), q.names, MembersOf(rows, q), |q.names|)
  }

  /** Every group has as many rows as its share. */
  predicate Enough(s: Shuffles, rows: seq<Row>, q: Request)
    requires OrderFor(s, q) != []
  {
    forall g :: g in q.names ==> |Members(rows, g, q.groupFor)| >= TargetOf(g, OrderFor(s, q), q.count)
  }

  /** The row comes from the share of its group, from the end, after d others. */
  ghost predicate PlacedFrom(s: Shuffles, rows: seq<Row>, q: Request, g: string, d: nat, row: Row)
    requires OrderFor(s, q) != []
  {
    var at := TargetOf(g, OrderFor(s, q), q.count) - 1 - d;
    g in ShuffledFor(s, rows, q) && 0 <= at < |ShuffledFor(s, rows, q)[g]| && row == ShuffledFor(s, rows, q)[g][at]
  }

  ghost predicate PlaceRight(s: Shuffles, rows: seq<Row>, q: Request, p: nat, row: Row)
    requires OrderFor(s, q) != []
  {
    PlacedFrom(s, rows, q, OrderFor(s, q)[TurnAt(p, |OrderFor(s, q)|)], RoundAt(p, |OrderFor(s, q)|), row)
  }

  /** The row at place p belongs to the group whose turn it is. */
  ghost predicate TurnRight(order: seq<string>, groupFor: Row -> string, p: nat, row: Row)
    requires order != []
  {
    groupFor(row) == order[TurnAt(p, |order|)]
  }

  ghost predicate InTurn(rows: seq<Row>, order: seq<string>, groupFor: Row -> string)
    requires order != []
  {
    forall p :: 0 <= p < |rows| ==> TurnRight(order, groupFor, p, rows[p])
  }

  ghost predicate IsSample(s: Shuffles, rows: seq<Row>, q: Request, result: seq<Row>)
    requires OrderFor(s, q) != []
  {
    && |result| == q.count
    && (forall p :: 0 <= p < |result| ==> PlaceRight(s, rows, q, p, result[p]))
    && InTurn(result, OrderFor(s, q), q.groupFor)
    && multiset(result) <= multiset(rows)
  }

  lemma GroupedMembers(groups: Groups, rows: seq<Row>, q: Request)
    requires GroupsOf(groups, rows, q.names, q.groupFor)
    ensures groups == MembersOf(rows, q)
  {
  }

  function SharesFor(s: Shuffles, q: Request): Shares
    requires OrderFor(s, q) != []
  {
    Shares(q.count / |OrderFor(s, q)|, q.count % |OrderFor(s, q)|)
  }

  lemma ShareOfOrder(s: Shuffles, q: Request, j: nat)
    requires OrderFor(s, q) != [] && Distinct(OrderFor(s, q)) && j < |OrderFor(s, q)|
    ensures TargetOf(OrderFor(s, q)[j], OrderFor(s, q), q.count) == ShareAt(SharesFor(s, q), j)
  {
    AmongFirst(OrderFor(s, q), q.count % |OrderFor(s, q)|, j);
  }

  /** The groups hold at least their shares. */
  predicate SharesFit(s: Shuffles, q: Request, shuffled: Groups)
    requires OrderFor(s, q) != []
  {
    forall g :: g in q.names ==> g in shuffled && |shuffled[g]| >= TargetOf(g, OrderFor(s, q), q.count)
  }

  /** The first share of each shuffled group. */
  function TakenFor(s: Shuffles, rows: seq<Row>, q: Request, shuffled: Groups): Groups
    requires OrderFor(s, q) != []
    requires SharesFit(s, q, shuffled)
  {
    map g | g in q.names :: shuffled[g][..TargetOf(g, OrderFor(s, q), q.count)]
  }

  ghost predicate Proper(s: Shuffles, q: Request) { Permute(s) && Distinct(q.names) && q.names != [] }

  lemma OrderProper(s: Shuffles, q: Request)
    requires Proper(s, q)
    ensures OrderFor(s, q) != [] && Distinct(OrderFor(s, q)) && |OrderFor(s, q)| == |q.names|
    ensures forall g :: g in OrderFor(s, q) <==> g in q.names
  {
    DistinctPermuted(OrderFor(s, q), q.names);
  }

  lemma ShuffledProper(s: Shuffles, rows: seq<Row>, q: Request, g: string)
    requires Proper(s, q) && g in q.names
    ensures g in ShuffledFor(s, rows, q)
    ensures multiset(ShuffledFor(s, rows, q)[g]) == multiset(Members(rows, g, q.groupFor))
    ensures |ShuffledFor(s, rows, q)[g]| == |Members(rows, g, q.groupFor)|
    ensures AllIn(ShuffledFor(s, rows, q)[g], g, q.groupFor)
  {
    ShuffledPermutes(s, Next(Fresh(q.seed), |q.names|), q.names, MembersOf(rows, q), |q.names|, g);
    SameLength(ShuffledFor(s, rows, q)[g], Members(rows, g, q.groupFor));
    MembersIn(rows, g, q.groupFor);
    AllInPermuted(ShuffledFor(s, rows, q)[g], Members(rows, g, q.groupFor), g, q.groupFor);
  }

  lemma TakenProper(s: Shuffles, rows: seq<Row>, q: Request, taken: Groups)
    requires Proper(s, q) && OrderFor(s, q) != [] && Enough(s, rows, q)
    requires SharesFit(s, q, ShuffledFor(s, rows, q))
    requires taken == TakenFor(s, rows, q, ShuffledFor(s, rows, q))
    ensures TakenRight(OrderFor(s, q), taken, SharesFor(s, q))
  {
    OrderProper(s, q);
    var order := OrderFor(s, q);
    forall j | 0 <= j < |order|
      ensures order[j] in taken && |taken[order[j]]| == ShareAt(SharesFor(s, q), j)
    {
      assert order[j] in q.names;
      ShareOfOrder(s, q, j);
    }
  }

  /** No more rows are taken than the partition has. */
  lemma TakenOnce(s: Shuffles, rows: seq<Row>, q: Request, taken: Groups, x: Row)
    requires Proper(s, q) && OrderFor(s, q) != []
    requires SharesFit(s, q, ShuffledFor(s, rows, q))
    requires taken == TakenFor(s, rows, q, ShuffledFor(s, rows, q))
    ensures Held(OrderFor(s, q), taken, |OrderFor(s, q)|, x) <= multiset(rows)[x]
  {
    OrderProper(s, q);
    var order, groups := OrderFor(s, q), MembersOf(rows, q);
    forall i | 0 <= i < |order|
      ensures order[i] in taken && order[i] in groups && multiset(taken[order[i]]) <= multiset(groups[order[i]])
    {
      var g := order[i];
      assert g in q.names;
      ShuffledProper(s, rows, q, g);
      PrefixLess(ShuffledFor(s, rows, q)[g], TargetOf(g, order, q.count));
    }
    HeldLess(order, taken, groups, |order|, x);
    GroupedOnce(rows, order, groups, q.groupFor, x);
  }

  lemma PrefixLess(rows: seq<Row>, n: nat)
    requires n <= |rows|
    ensures multiset(rows[..n]) <= multiset(rows)
  {
    assert rows == rows[..n] + rows[n..];
  }

  /** A row taken from the end of a group's share. */
  lemma FromGroup(s: Shuffles, rows: seq<Row>, q: Request, taken: Groups, g: string, d: nat, row: Row)
    requires Proper(s, q) && OrderFor(s, q) != [] && g in q.names
    requires SharesFit(s, q, ShuffledFor(s, rows, q))
    requires taken == TakenFor(s, rows, q, ShuffledFor(s, rows, q))
    requires PickedFrom(taken, g, d, row)
    ensures PlacedFrom(s, rows, q, g, d, row) && q.groupFor(row) == g
  {
    ShuffledProper(s, rows, q, g);
  }

  lemma PickedIsPlaced(s: Shuffles, rows: seq<Row>, q: Request, taken: Groups, p: nat, row: Row)
    requires Proper(s, q) && OrderFor(s, q) != []
    requires SharesFit(s, q, ShuffledFor(s, rows, q))
    requires taken == TakenFor(s, rows, q, ShuffledFor(s, rows, q))
    requires Picked(OrderFor(s, q), taken, p, row)
    ensures PlaceRight(s, rows, q, p, row) && TurnRight(OrderFor(s, q), q.groupFor, p, row)
  {
    var order := OrderFor(s, q);
    OrderProper(s, q);
    var g := order[TurnAt(p, |order|)];
    assert g in q.names;
    FromGroup(s, rows, q, taken, g, RoundAt(p, |order|), row);
  }

  lemma DrawnIsSample(s: Shuffles, rows: seq<Row>, q: Request, taken: Groups, result: seq<Row>)
    requires Proper(s, q) && OrderFor(s, q) != []
    requires SharesFit(s, q, ShuffledFor(s, rows, q))
    requires taken == TakenFor(s, rows, q, ShuffledFor(s, rows, q))
    requires |result| == q.count && Drawn(result, OrderFor(s, q), taken)
    requires forall x :: multiset(result)[x] <= Held(OrderFor(s, q), taken, |OrderFor(s, q)|, x)
    ensures IsSample(s, rows, q, result)
  {
    forall p | 0 <= p < |result|
      ensures PlaceRight(s, rows, q, p, result[p]) && TurnRight(OrderFor(s, q), q.groupFor, p, result[p])
    {
      PickedIsPlaced(s, rows, q, taken, p, result[p]);
    }
    forall x
      ensures multiset(result)[x] <= multiset(rows)[x]
    {
      TakenOnce(s, rows, q, taken, x);
    }
  }

  /** Whether every group has enough rows for its target. */
  method HasEnough(s: Shuffles, rows: seq<Row>, q: Request, grouped: Groups) returns (enough: bool)
    requires Proper(s, q) && OrderFor(s, q) != [] && grouped == MembersOf(rows, q)
    ensures enough <==> Enough(s, rows, q)
  {
    var targets := BalancedTargets(s, q.names, q.count, q.seed);
    enough := !exists g :: g in q.names && |grouped[g]| < targets[g];
  }

  lemma EnoughFits(s: Shuffles, rows: seq<Row>, q: Request)
    requires Proper(s, q) && OrderFor(s, q) != [] && Enough(s, rows, q)
    ensures SharesFit(s, q, ShuffledFor(s, rows, q))
  {
    forall g | g in q.names
      ensures g in ShuffledFor(s, rows, q) && |ShuffledFor(s, rows, q)[g]| >= TargetOf(g, OrderFor(s, q), q.count)
    {
      ShuffledProper(s, rows, q, g);
    }
  }

  lemma CountSplit(s: Shuffles, q: Request)
    requires OrderFor(s, q) != []
    ensures q.count == SharesFor(s, q).q * |OrderFor(s, q)| + SharesFor(s, q).rem
  {
  }

  /** Draws a balanced random sample, or fails exactly if some group has too few rows. */
  method BalancedRandomSample(s: Shuffles, rows: seq<Row>, q: Request) returns (result: Option<seq<Row>>)
    requires Proper(s, q)
    ensures OrderFor(s, q) != []
    ensures result.Some? <==> Enough(s, rows, q)
    ensures result.Some? ==> IsSample(s, rows, q, result.value)
    ensures var order := s.names(Rng(q.seed, []), q.names);
            result.Some? ==> order != [] && InTurn(result.value, order, q.groupFor)
  {
    OrderProper(s, q);
    var grouped := GroupRows(rows, q.names, q.groupFor);
    GroupedMembers(grouped, rows, q);
    var enough := HasEnough(s, rows, q, grouped);
    if !enough { return None; }
    var rng := Fresh(q.seed);
    var order := s.names(rng, q.names);
    var shuffled := ShuffleGroups(s, Next(rng, |q.names|), q.names, grouped);
    EnoughFits(s, rows, q);
    var taken := TakenFor(s, rows, q, shuffled);
    TakenProper(s, rows, q, taken);
    CountSplit(s, q);
    var sample := DrawAll(order, taken, SharesFor(s, q), q.count);
    DrawnIsSample(s, rows, q, taken, sample);
    result := Some(sample);
  }

  // ---------- Balance ----------

  lemma {:induction false} CountIsMembers(rows: seq<Row>, g: string, groupFor: Row -> string, n: nat)
    requires n <= |rows|
    ensures CountIn(rows, g, groupFor, n) == |Members(rows[..n], g, groupFor)|
  {
    if n > 0 {
      CountIsMembers(rows, g, groupFor, n - 1);
      assert rows[..n][..n - 1] == rows[..n - 1];
    }
  }

  lemma FewerMembers(some: seq<Row>, rows: seq<Row>, g: string, groupFor: Row -> string)
    requires multiset(some) <= multiset(rows)
    ensures |Members(some, g, groupFor)| <= |Members(rows, g, groupFor)|
  {
    var a, b := multiset(Members(some, g, groupFor)), multiset(Members(rows, g, groupFor));
    forall x
      ensures a[x] <= b[x]
    {
      MemberCount(some, g, groupFor, x);
      MemberCount(rows, g, groupFor, x);
    }
    assert b == a + (b - a);
    assert |b| == |a| + |b - a|;
  }

  /** A request fails only if there is nothing to return: whatever rows the groups would be drawn in turn
      from, some group would run out. */
  lemma FailsOnlyIfImpossible(s: Shuffles, rows: seq<Row>, q: Request, drawn: seq<Row>)
    requires Proper(s, q) && OrderFor(s, q) != []
    requires |drawn| == q.count && InTurn(drawn, OrderFor(s, q), q.groupFor) && multiset(drawn) <= multiset(rows)
    ensures Enough(s, rows, q)
  {
    OrderProper(s, q);
    var order := OrderFor(s, q);
    forall g | g in q.names
      ensures |Members(rows, g, q.groupFor)| >= TargetOf(g, order, q.count)
    {
      assert g in order;
      var i :| 0 <= i < |order| && order[i] == g;
      PrefixCount(drawn, order, q.groupFor, |drawn|, i);
      ShareOfOrder(s, q, i);
      CountIsMembers(drawn, g, q.groupFor, |drawn|);
      assert drawn[..|drawn|] == drawn;
      FewerMembers(drawn, rows, g, q.groupFor);
    }
  }

  function CountIn(rows: seq<Row>, g: string, groupFor: Row -> string, n: nat): nat
    requires n <= |rows|
  {
    if n == 0 then 0 else CountIn(rows, g, groupFor, n - 1) + if groupFor(rows[n - 1]) == g then 1 else 0
  }

  lemma NextPlace(n: nat, g: nat)
    requires g > 0
    ensures n % g + 1 < g ==> (n + 1) / g == n / g && (n + 1) % g == n % g + 1
    ensures n % g + 1 == g ==> (n + 1) / g == n / g + 1 && (n + 1) % g == 0
  {
    var a, b := n / g, n % g;
    assert n == a * g + b;
    if b + 1 < g {
      DivisionUnique(n + 1, g, a, b + 1);
    } else {
      assert (a + 1) * g == a * g + g;
      DivisionUnique(n + 1, g, a + 1, 0);
    }
  }

  lemma CountStep(rows: seq<Row>, order: seq<string>, groupFor: Row -> string, n: nat, i: nat, j: nat, rounds: nat)
    requires Distinct(order) && n < |rows| && i < |order| && j < |order| && groupFor(rows[n]) == order[j]
    requires CountIn(rows, order[i], groupFor, n) == rounds + if i < j then 1 else 0
    ensures CountIn(rows, order[i], groupFor, n + 1) == rounds + if i < j + 1 then 1 else 0
  {
    assert order[i] == order[j] <==> i == j;
  }

  /** Of the first n rows each group has one in every whole round, and those whose turn has come have
      one more. */
  lemma {:induction false} PrefixCount(rows: seq<Row>, order: seq<string>, groupFor: Row -> string, n: nat, i: nat)
    requires order != [] && Distinct(order) && n <= |rows| && i < |order|
    requires InTurn(rows, order, groupFor)
    ensures CountIn(rows, order[i], groupFor, n) == n / |order| + if i < n % |order| then 1 else 0
  {
    if n > 0 {
      PrefixCount(rows, order, groupFor, n - 1, i);
      NextPlace(n - 1, |order|);
      assert TurnRight(order, groupFor, n - 1, rows[n - 1]);
      CountStep(rows, order, groupFor, n - 1, i, (n - 1) % |order|, (n - 1) / |order|);
    } else {
      DivisionUnique(0, |order|, 0, 0);
    }
  }

  /** Every prefix of a sample is balanced to within one between any two groups. */
  lemma EveryPrefixBalanced(s: Shuffles, rows: seq<Row>, q: Request, result: seq<Row>, n: nat, a: string, b: string)
    requires Proper(s, q) && OrderFor(s, q) != [] && IsSample(s, rows, q, result)
    requires n <= |result| && a in q.names && b in q.names
    ensures CountIn(result, a, q.groupFor, n) <= CountIn(result, b, q.groupFor, n) + 1
  {
    OrderProper(s, q);
    var order := OrderFor(s, q);
    assert a in order && b in order;
    var i :| 0 <= i < |order| && order[i] == a;
    var j :| 0 <= j < |order| && order[j] == b;
    PrefixCount(result, order, q.groupFor, n, i);
    PrefixCount(result, order, q.groupFor, n, j);
  }
}
