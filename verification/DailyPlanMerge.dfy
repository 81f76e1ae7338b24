/**
 * Migration 0035: bring daily_plan to one row per (user, day, category) by
 * normalising dates, aggregating each group into its earliest row and deleting the rest.
 */
module DailyPlanMerge {
  import opened Prelude

  datatype Category = Category(name: string)

  /** Amounts are in cents and times in microseconds; rest stands for the columns the migration never names. */
  datatype Row = Row(user: int, date: int, category: Option<Category>, createdAt: Option<int>,
                     spent: Option<int>, planned: Option<int>, budget: Option<int>, rest: int)

  /** Rows by primary key. */
  type Table = map<int, Row>

  const DAY := 86_400_000_000

  // ---------- The SQL, expression by expression ----------

  /** date_trunc('day', date) in a session whose offset from UTC is fixed. */
  function TruncDay(date: int, offset: int): int {
    date - (date + offset) % DAY
  }

  predicate SameGroup(a: Row, b: Row) {
    a.category.Some? && b.category == a.category && a.user == b.user && a.date == b.date
  }

  /** PARTITION BY user_id, date, category, of a row that has a category. */
  function Group(t: Table, id: int): set<int>
    requires id in t
  {
    set j | j in t && SameGroup(t[j], t[id])
  }

  /** ORDER BY created_at ASC NULLS LAST, id ASC */
  predicate Before(t: Table, i: int, j: int)
    requires i in t && j in t
  {
    var a, b := t[i].createdAt, t[j].createdAt;
    if a == b then i < j else a.Some? && (b.None? || a.value < b.value)
  }

  function RowNumber(t: Table, id: int): nat
    requires id in t
  {
    1 + |set j | j in Group(t, id) && Before(t, j, id)|
  }

  /** WHERE category IS NOT NULL ... rn = 1 */
  predicate RankedFirst(t: Table, id: int)
    requires id in t
  {
    t[id].category.Some? && RowNumber(t, id) == 1
  }

  predicate RankedLater(t: Table, id: int)
    requires id in t
  {
    t[id].category.Some? && RowNumber(t, id) > 1
  }

  lemma SomeMember(ids: set<int>) returns (z: int)
    requires ids != {}
    ensures z in ids
  {
    assert (forall y: int :: y !in ids) ==> ids == {};
    z :| z in ids;
  }

  lemma {:induction false} LeastExists(ids: set<int>)
    requires ids != {}
    ensures exists x :: x in ids && forall y :: y in ids ==> x <= y
  {
    var z := SomeMember(ids);
    if ids != {z} {
      LeastExists(ids - {z});
      var x :| x in ids - {z} && forall y :: y in ids - {z} ==> x <= y;
      assert forall y :: y in ids ==> y == z || y in ids - {z};
      assert (if x < z then x else z) in ids;
    } else {
      assert forall y :: y in ids ==> z <= y;
    }
  }

  function Least(ids: set<int>): (x: int)
    requires ids != {}
    ensures x in ids && forall y :: y in ids ==> x <= y
  {
    LeastExists(ids);
    var x :| x in ids && forall y :: y in ids ==> x <= y;
    x
  }

  /** COALESCE(spent_amount, 0) */
  function Spent(r: Row): int {
    if r.spent.Some? then r.spent.value else 0
  }

  /** SUM(COALESCE(spent_amount, 0)) */
  function SumSpent(t: Table, ids: set<int>): int
    requires ids <= t.Keys
  {
    if ids == {} then 0 else
    var x := Least(ids);
    Spent(t[x]) + SumSpent(t, ids - {x})
  }

  function Larger(a: Option<int>, b: Option<int>): Option<int> {
    if a.None? then b else if b.None? then a else if a.value >= b.value then a else b
  }

  /** MAX(column), which ignores NULLs */
  function Max(t: Table, ids: set<int>, column: Row -> Option<int>): Option<int>
    requires ids <= t.Keys
  {
    if ids == {} then None else
    var x := Least(ids);
    Larger(column(t[x]), Max(t, ids - {x}, column))
  }

  function Normalize(t: Table, offset: int): Table {
    map id | id in t :: t[id].(date := TruncDay(t[id].date, offset))
  }

  function Merged(t: Table, id: int): Row
    requires id in t
  {
    if RankedFirst(t, id) && |Group(t, id)| > 1 then
      t[id].(spent := Some(SumSpent(t, Group(t, id))),
             planned := Max(t, Group(t, id), (r: Row) => r.planned),
             budget := Max(t, Group(t, id), (r: Row) => r.budget))
    else t[id]
  }

  /** The UPDATE. */
  function MergeIntoFirst(t: Table): Table {
    map id | id in t :: Merged(t, id)
  }

  function Later(t: Table): set<int> {
    set id | id in t && RankedLater(t, id)
  }

  /** The DELETE. */
  function DeleteLater(t: Table): Table {
    t - Later(t)
  }

  function Upgrade(t: Table, offset: int): Table {
    DeleteLater(MergeIntoFirst(Normalize(t, offset)))
  }

  // ---------- What the results speak of ----------

  /** The rows of a user, day and category, NULL included, whatever their time of day. */
  function RowsOf(t: Table, offset: int, user: int, day: int, category: Option<Category>): set<int> {
    set i | i in t && t[i].user == user && TruncDay(t[i].date, offset) == day && t[i].category == category
  }

  /** Truncation yields a midnight of the session, and two instants share it exactly when no midnight lies between them. */
  lemma TruncIsMidnight(a: int, b: int, offset: int)
    ensures TruncDay(a, offset) <= a < TruncDay(a, offset) + 86_400_000_000 && (TruncDay(a, offset) + offset) % 86_400_000_000 == 0
    ensures TruncDay(a, offset) == TruncDay(b, offset) <==> (a + offset) / 86_400_000_000 == (b + offset) / 86_400_000_000
  {
    var p, q := (a + offset) / DAY, (b + offset) / DAY;
    assert TruncDay(a, offset) + offset == p * DAY && TruncDay(b, offset) + offset == q * DAY;
    assert (p * DAY) % DAY == 0;
  }

  lemma TruncTwice(date: int, offset: int)
    ensures TruncDay(TruncDay(date, offset), offset) == TruncDay(date, offset)
  {
    var q := (date + offset) / DAY;
    assert TruncDay(date, offset) + offset == q * DAY;
    assert (q * DAY) % DAY == 0;
  }

  /** Two rows agree on user, date and category, and the category is not NULL. */
  predicate Collide(a: Row, b: Row) {
    a.category.Some? && b.category.Some? && a.category.value == b.category.value && a.user == b.user && a.date == b.date
  }

  ghost predicate NoneCollide(t: Table) {
    forall i, j :: i in t && j in t && i != j ==> !Collide(t[i], t[j])
  }

  /** The rows on the user, day and category of a row. */
  function Peers(t: Table, offset: int, id: int): set<int>
    requires id in t
  {
    RowsOf(t, offset, t[id].user, TruncDay(t[id].date, offset), t[id].category)
  }

  /** The amounts that have been recorded, those that are NULL left out. */
  function Amounts(t: Table, ids: set<int>): seq<int>
    requires ids <= t.Keys
  {
    if ids == {} then [] else
    var x := Least(ids);
    (if t[x].spent.Some? then [t[x].spent.value] else []) + Amounts(t, ids - {x})
  }

  function Sum(amounts: seq<int>): int {
    if amounts == [] then 0 else amounts[0] + Sum(amounts[1..])
  }

  function Total(t: Table, ids: set<int>): int
    requires ids <= t.Keys
  {
    Sum(Amounts(t, ids))
  }

  // ---------- Ranking ----------

  lemma RankedFirstIsEarliest(t: Table, id: int)
    requires id in t && t[id].category.Some?
    ensures RankedFirst(t, id) <==> forall j :: j in Group(t, id) && j != id ==> Before(t, id, j)
  {
    var earlier := set j | j in Group(t, id) && Before(t, j, id);
    if RankedFirst(t, id) {
      assert earlier == {};
      forall j | j in Group(t, id) && j != id ensures Before(t, id, j) {
        assert j !in earlier;
      }
    } else {
      assert earlier != {};
      var j :| j in earlier;
      assert j in Group(t, id) && !Before(t, id, j);
    }
  }

  lemma {:induction false} EarliestExists(t: Table, ids: set<int>) returns (first: int)
    requires ids != {} && ids <= t.Keys
    ensures first in ids && forall j :: j in ids && j != first ==> Before(t, first, j)
  {
    var z := SomeMember(ids);
    first := z;
    if ids != {z} {
      var x := EarliestExists(t, ids - {z});
      first := if Before(t, z, x) then z else x;
      assert forall j :: j in ids ==> j == z || j in ids - {z};
    }
  }

  lemma SameGroupSameRows(t: Table, id: int, j: int)
    requires id in t && j in Group(t, id)
    ensures Group(t, j) == Group(t, id)
  {
    assert SameGroup(t[j], t[id]);
    forall i | i in t ensures SameGroup(t[i], t[j]) <==> SameGroup(t[i], t[id]) {
    }
  }

  /** Every group has a first row. */
  lemma FirstExists(t: Table, id: int) returns (first: int)
    requires id in t && t[id].category.Some?
    ensures first in Group(t, id) && RankedFirst(t, first) && Group(t, first) == Group(t, id)
  {
    assert id in Group(t, id);
    first := EarliestExists(t, Group(t, id));
    SameGroupSameRows(t, id, first);
    RankedFirstIsEarliest(t, first);
  }

  lemma FirstIsUnique(t: Table, i: int, j: int)
    requires i in t && j in t && SameGroup(t[i], t[j]) && RankedFirst(t, i) && RankedFirst(t, j)
    ensures i == j
  {
    RankedFirstIsEarliest(t, i);
    RankedFirstIsEarliest(t, j);
    assert j in Group(t, i) && i in Group(t, j);
  }

  /** The UPDATE leaves the ranking columns alone, so both statements rank alike. */
  lemma MergeKeepsRanking(t: Table, id: int)
    requires id in t
    ensures var m := MergeIntoFirst(t);
            && m.Keys == t.Keys && m[id].category == t[id].category
            && Group(m, id) == Group(t, id) && RowNumber(m, id) == RowNumber(t, id)
  {
    var m := MergeIntoFirst(t);
    assert Group(m, id) == Group(t, id);
    assert (set j | j in Group(m, id) && Before(m, j, id)) == set j | j in Group(t, id) && Before(t, j, id);
  }

  /** The row that receives the aggregate is the row that survives. */
  lemma FirstSurvives(t: Table, offset: int, id: int)
    requires id in t && t[id].category.Some?
    ensures id in Upgrade(t, offset) <==> RankedFirst(Normalize(t, offset), id)
    ensures id in Upgrade(t, offset) ==> Upgrade(t, offset)[id] == Merged(Normalize(t, offset), id)
  {
    MergeKeepsRanking(Normalize(t, offset), id);
  }

  lemma NormalizedGroup(t: Table, offset: int, id: int)
    requires id in t && t[id].category.Some?
    ensures Group(Normalize(t, offset), id) == Peers(t, offset, id)
  {
    var n := Normalize(t, offset);
    forall i | i in t ensures i in Group(n, id) <==> i in Peers(t, offset, id) {
      assert n[i] == t[i].(date := TruncDay(t[i].date, offset));
    }
  }

  /** The survivor by its columns: created before every other row of its group, NULL last, the smaller id among equals. */
  lemma SurvivorExactly(t: Table, offset: int, id: int)
    requires id in t && t[id].category.Some?
    ensures id in Upgrade(t, offset) <==>
            forall i :: i in Peers(t, offset, id) && i != id ==>
              if t[id].createdAt == t[i].createdAt then id < i
              else t[id].createdAt.Some? && (t[i].createdAt.None? || t[id].createdAt.value < t[i].createdAt.value)
  {
    var n := Normalize(t, offset);
    FirstSurvives(t, offset, id);
    NormalizedGroup(t, offset, id);
    RankedFirstIsEarliest(n, id);
  }

  /** No user, day and category loses its last row, and no row is new. */
  lemma EveryGroupSurvives(t: Table, offset: int, id: int)
    requires id in t
    ensures exists k :: k in Upgrade(t, offset) && k in Peers(t, offset, id)
    ensures Upgrade(t, offset).Keys <= t.Keys
  {
    if t[id].category.Some? {
      var k := FirstExists(Normalize(t, offset), id);
      FirstSurvives(t, offset, k);
      NormalizedGroup(t, offset, id);
    } else {
      assert id in Upgrade(t, offset) && id in Peers(t, offset, id);
    }
  }

  // ---------- Uniqueness ----------

  /** What the unique constraint demands; NULL categories never collide. */
  predicate Unique(t: Table) {
    forall i, j :: i in t && j in t && i != j ==> !SameGroup(t[i], t[j])
  }

  lemma UniqueMeaning(t: Table)
    ensures Unique(t) <==> NoneCollide(t)
  {
    if !Unique(t) {
      var i, j :| i in t && j in t && i != j && SameGroup(t[i], t[j]);
      assert Collide(t[i], t[j]);
    }
  }

  /** The constraint can always be created. */
  lemma UpgradeIsUnique(t: Table, offset: int)
    ensures Unique(Upgrade(t, offset))
    ensures NoneCollide(Upgrade(t, offset))
  {
    var n, u := Normalize(t, offset), Upgrade(t, offset);
    forall i, j | i in u && j in u && i != j ensures !SameGroup(u[i], u[j]) {
      if SameGroup(u[i], u[j]) {
        FirstSurvives(t, offset, i);
        FirstSurvives(t, offset, j);
        FirstIsUnique(n, i, j);
      }
    }
  }

  // ---------- Sums ----------

  lemma LeastIs(ids: set<int>, m: int)
    requires m in ids && forall y :: y in ids ==> m <= y
    ensures Least(ids) == m
  {
  }

  lemma {:induction false} SumWithout(t: Table, ids: set<int>, x: int)
    requires ids <= t.Keys && x in ids
    ensures SumSpent(t, ids) == Spent(t[x]) + SumSpent(t, ids - {x})
  {
    var m := Least(ids);
    if x != m {
      SumWithout(t, ids - {m}, x);
      LeastIs(ids - {x}, m);
      assert ids - {m} - {x} == ids - {x} - {m};
    }
  }

  lemma {:induction false} SumUnion(t: Table, a: set<int>, b: set<int>)
    requires a <= t.Keys && b <= t.Keys && a !! b
    ensures SumSpent(t, a + b) == SumSpent(t, a) + SumSpent(t, b)
  {
    if a == {} {
      assert a + b == b;
    } else {
      var x := Least(a);
      SumUnion(t, a - {x}, b);
      SumWithout(t, a + b, x);
      assert a + b - {x} == (a - {x}) + b;
    }
  }

  lemma {:induction false} SumDependsOnSpent(t: Table, t': Table, ids: set<int>)
    requires ids <= t.Keys && ids <= t'.Keys
    requires forall i :: i in ids ==> t[i].spent == t'[i].spent
    ensures SumSpent(t, ids) == SumSpent(t', ids)
  {
    if ids != {} {
      SumDependsOnSpent(t, t', ids - {Least(ids)});
    }
  }

  lemma {:induction false} SumIsTotal(t: Table, ids: set<int>)
    requires ids <= t.Keys
    ensures SumSpent(t, ids) == Total(t, ids)
  {
    if ids != {} {
      var x := Least(ids);
      SumIsTotal(t, ids - {x});
      if t[x].spent.Some? {
        assert ([t[x].spent.value] + Amounts(t, ids - {x}))[1..] == Amounts(t, ids - {x});
      } else {
        assert [] + Amounts(t, ids - {x}) == Amounts(t, ids - {x});
      }
    }
  }

  /** The total: nothing for no rows, an amount for its row, nothing for NULL, and sums for separate rows. */
  lemma TotalMeaning(t: Table, x: int, a: set<int>, b: set<int>)
    requires x in t && a <= t.Keys && b <= t.Keys && a !! b
    ensures Total(t, {}) == 0
    ensures t[x].spent.None? ==> Total(t, {x}) == 0
    ensures t[x].spent.Some? ==> Total(t, {x}) == t[x].spent.value
    ensures Total(t, a + b) == Total(t, a) + Total(t, b)
  {
    SumIsTotal(t, {x});
    SumOfOne(t, x);
    SumUnion(t, a, b);
    SumIsTotal(t, a);
    SumIsTotal(t, b);
    SumIsTotal(t, a + b);
  }

  lemma SumOfOne(t: Table, x: int)
    requires x in t
    ensures SumSpent(t, {x}) == Spent(t[x])
  {
    SumWithout(t, {x}, x);
    assert {x} - {x} == {};
  }

  // ---------- Conservation ----------

  /** The rows whose spending row k carries afterwards. */
  function Fibre(t: Table, k: int): set<int>
    requires k in t
  {
    if t[k].category.Some? then Group(t, k) else {k}
  }

  function Cover(t: Table, ks: set<int>): set<int>
    requires ks <= t.Keys
  {
    set i | i in t && exists k :: k in ks && i in Fibre(t, k)
  }

  lemma SurvivorCarriesFibre(t: Table, offset: int, k: int)
    requires k in Upgrade(t, offset)
    ensures k in t
    ensures Spent(Upgrade(t, offset)[k]) == SumSpent(Normalize(t, offset), Fibre(Normalize(t, offset), k))
  {
    var n := Normalize(t, offset);
    if t[k].category.Some? {
      FirstSurvives(t, offset, k);
      assert k in Group(n, k);
      if |Group(n, k)| <= 1 {
        OnlyElement(Group(n, k), k);
        SumOfOne(n, k);
      }
    } else {
      SumOfOne(n, k);
    }
  }

  lemma OnlyElement(s: set<int>, x: int)
    requires x in s && |s| <= 1
    ensures s == {x}
  {
    assert |s - {x}| == 0;
  }

  lemma SurvivorFibresDisjoint(t: Table, offset: int, k: int, k': int)
    requires k in Upgrade(t, offset) && k' in Upgrade(t, offset) && k != k'
    ensures k in t && k' in t && Fibre(Normalize(t, offset), k) !! Fibre(Normalize(t, offset), k')
  {
    var n := Normalize(t, offset);
    if n[k].category.Some? && n[k'].category.Some? {
      FirstSurvives(t, offset, k);
      FirstSurvives(t, offset, k');
      forall i | i in Group(n, k) && i in Group(n, k') ensures false {
        FirstIsUnique(n, k, k');
      }
    }
  }

  lemma {:induction false} SurvivorsCarry(t: Table, offset: int, ks: set<int>)
    requires ks <= Upgrade(t, offset).Keys
    ensures ks <= Normalize(t, offset).Keys
    ensures SumSpent(Upgrade(t, offset), ks) == SumSpent(Normalize(t, offset), Cover(Normalize(t, offset), ks))
    decreases |ks|
  {
    var n := Normalize(t, offset);
    if ks == {} {
      assert Cover(n, ks) == {};
    } else {
      var k := Least(ks);
      var others := ks - {k};
      SurvivorsCarry(t, offset, others);
      SurvivorCarriesFibre(t, offset, k);
      assert Cover(n, ks) == Fibre(n, k) + Cover(n, others);
      forall i | i in Cover(n, others) ensures i !in Fibre(n, k) {
        var k' :| k' in others && i in Fibre(n, k');
        SurvivorFibresDisjoint(t, offset, k, k');
      }
      SumUnion(n, Fibre(n, k), Cover(n, others));
    }
  }

  /** The rows a survivor stands for: its group's when it has a category, else itself. */
  function Stands(t: Table, offset: int, k: int): set<int> {
    if k !in t then {} else if t[k].category.Some? then Peers(t, offset, k) else {k}
  }

  lemma StandsFor(t: Table, offset: int, k: int)
    requires k in t
    ensures Fibre(Normalize(t, offset), k) == Stands(t, offset, k)
  {
    if t[k].category.Some? {
      NormalizedGroup(t, offset, k);
    }
  }

  function StoodFor(t: Table, offset: int, ks: set<int>): set<int> {
    set i | i in t && exists k :: k in ks && i in Stands(t, offset, k)
  }

  lemma CoverIsStoodFor(t: Table, offset: int, ks: set<int>)
    requires ks <= t.Keys
    ensures Cover(Normalize(t, offset), ks) == StoodFor(t, offset, ks)
  {
    var n := Normalize(t, offset);
    forall k | k in ks ensures Fibre(n, k) == Stands(t, offset, k) {
      StandsFor(t, offset, k);
    }
  }

  /** What any survivors have spent is what the rows they stand for had spent. */
  lemma SurvivorsConserve(t: Table, offset: int, ks: set<int>)
    requires ks <= Upgrade(t, offset).Keys
    ensures Total(Upgrade(t, offset), ks) == Total(t, StoodFor(t, offset, ks))
  {
    SurvivorsCarry(t, offset, ks);
    CoverIsStoodFor(t, offset, ks);
    SumDependsOnSpent(t, Normalize(t, offset), StoodFor(t, offset, ks));
    SumIsTotal(t, StoodFor(t, offset, ks));
    SumIsTotal(Upgrade(t, offset), ks);
  }

  /** Every row stands for itself or is in the group of a survivor. */
  lemma SurvivorsCover(t: Table, offset: int)
    ensures Upgrade(t, offset).Keys <= Normalize(t, offset).Keys
    ensures Cover(Normalize(t, offset), Upgrade(t, offset).Keys) == t.Keys
  {
    var n, u := Normalize(t, offset), Upgrade(t, offset);
    forall i | i in t ensures exists k :: k in u.Keys && i in Fibre(n, k) {
      if t[i].category.Some? {
        var k := FirstExists(n, i);
        FirstSurvives(t, offset, k);
        assert k in u.Keys && i in Fibre(n, k);
      } else {
        assert i in u.Keys && i in Fibre(n, i);
      }
    }
  }

  /** No money appears or disappears. */
  lemma TotalIsConserved(t: Table, offset: int)
    ensures Total(Upgrade(t, offset), Upgrade(t, offset).Keys) == Total(t, t.Keys)
  {
    SumIsTotal(Upgrade(t, offset), Upgrade(t, offset).Keys);
    SumIsTotal(t, t.Keys);
    SurvivorsCarry(t, offset, Upgrade(t, offset).Keys);
    SurvivorsCover(t, offset);
    SumDependsOnSpent(t, Normalize(t, offset), t.Keys);
  }

  /** For every user, day and category the amount spent is unchanged. */
  lemma GroupIsConserved(t: Table, offset: int, user: int, day: int, category: Option<Category>)
    ensures Total(Upgrade(t, offset), RowsOf(Upgrade(t, offset), offset, user, day, category))
            == Total(t, RowsOf(t, offset, user, day, category))
  {
    var n, u := Normalize(t, offset), Upgrade(t, offset);
    var before, after := RowsOf(t, offset, user, day, category), RowsOf(u, offset, user, day, category);
    SurvivorsCarry(t, offset, after);
    forall i ensures i in before <==> i in Cover(n, after) {
      CoverOfRows(t, offset, user, day, category, i);
    }
    assert before == Cover(n, after);
    SumDependsOnSpent(t, n, before);
    SumIsTotal(t, before);
    SumIsTotal(u, after);
  }

  lemma CoverOfRows(t: Table, offset: int, user: int, day: int, category: Option<Category>, i: int)
    requires RowsOf(Upgrade(t, offset), offset, user, day, category) <= Normalize(t, offset).Keys
    ensures i in RowsOf(t, offset, user, day, category) <==>
            i in Cover(Normalize(t, offset), RowsOf(Upgrade(t, offset), offset, user, day, category))
  {
    var n, u := Normalize(t, offset), Upgrade(t, offset);
    var after := RowsOf(u, offset, user, day, category);
    if i in t {
      TruncTwice(t[i].date, offset);
    }
    if i in RowsOf(t, offset, user, day, category) {
      var k := i;
      if category.Some? {
        k := FirstExists(n, i);
        FirstSurvives(t, offset, k);
        TruncTwice(t[k].date, offset);
      }
      assert k in after && i in Fibre(n, k);
    }
    if i in Cover(n, after) {
      var k :| k in after && i in Fibre(n, k);
      TruncTwice(t[k].date, offset);
    }
  }

  // ---------- The other columns ----------

  lemma {:induction false} MaxMeaning(t: Table, ids: set<int>, column: Row -> Option<int>)
    requires ids <= t.Keys
    ensures var m := Max(t, ids, column);
            && (forall i :: i in ids && column(t[i]).Some? ==> m.Some? && column(t[i]).value <= m.value)
            && (m.Some? ==> exists i :: i in ids && column(t[i]) == m)
  {
    if ids != {} {
      var x := Least(ids);
      MaxMeaning(t, ids - {x}, column);
      assert forall i :: i in ids ==> i == x || i in ids - {x};
    }
  }

  /** A merged row keeps everything but the three amounts and the date; those become the group's sum and maxima. */
  lemma MergedGroup(t: Table, offset: int, id: int, other: int)
    requires id in Upgrade(t, offset) && id in t && t[id].category.Some?
    requires other in Peers(t, offset, id) && other != id
    ensures var r, g := Upgrade(t, offset)[id], Peers(t, offset, id);
            && r.spent == Some(Total(t, g))
            && r == t[id].(date := TruncDay(t[id].date, offset), spent := r.spent, planned := r.planned, budget := r.budget)
            && (forall i :: i in g && t[i].planned.Some? ==> r.planned.Some? && t[i].planned.value <= r.planned.value)
            && (r.planned.Some? ==> exists i :: i in g && t[i].planned == r.planned)
            && (forall i :: i in g && t[i].budget.Some? ==> r.budget.Some? && t[i].budget.value <= r.budget.value)
            && (r.budget.Some? ==> exists i :: i in g && t[i].budget == r.budget)
            && (forall i :: i in g && i != id ==> i !in Upgrade(t, offset))
  {
    var n, g := Normalize(t, offset), Peers(t, offset, id);
    NormalizedGroup(t, offset, id);
    TwoMembers(g, id, other);
    FirstSurvives(t, offset, id);
    MaxMeaning(n, g, (r: Row) => r.planned);
    MaxMeaning(n, g, (r: Row) => r.budget);
    SumDependsOnSpent(t, n, g);
    SumIsTotal(t, g);
    OthersGo(t, offset, id);
  }

  lemma TwoMembers(s: set<int>, x: int, y: int)
    requires x in s && y in s && x != y
    ensures |s| > 1
  {
    if |s| <= 1 {
      OnlyElement(s, x);
      assert false;
    }
  }

  lemma OthersGo(t: Table, offset: int, id: int)
    requires id in t && id in Upgrade(t, offset) && t[id].category.Some?
    ensures forall i :: i in Peers(t, offset, id) && i != id ==> i !in Upgrade(t, offset)
  {
    FirstSurvives(t, offset, id);
    forall i | i in Peers(t, offset, id) && i != id ensures i !in Upgrade(t, offset) {
      FirstSurvives(t, offset, i);
      if i in Upgrade(t, offset) {
        FirstIsUnique(Normalize(t, offset), i, id);
      }
    }
  }

  lemma AloneSurvives(t: Table, offset: int, id: int)
    requires id in t
    requires t[id].category.Some? ==> Group(Normalize(t, offset), id) == {id}
    ensures id in Upgrade(t, offset) && Upgrade(t, offset)[id] == Normalize(t, offset)[id]
  {
    var n := Normalize(t, offset);
    if t[id].category.Some? {
      RankedFirstIsEarliest(n, id);
      FirstSurvives(t, offset, id);
    }
  }

  /** A row without a category, or alone in its group, changes in its date only. */
  lemma LoneRowOnlyNormalized(t: Table, offset: int, id: int)
    requires id in t
    requires t[id].category.Some? ==> Peers(t, offset, id) == {id}
    ensures id in Upgrade(t, offset) && Upgrade(t, offset)[id] == t[id].(date := TruncDay(t[id].date, offset))
  {
    if t[id].category.Some? {
      NormalizedGroup(t, offset, id);
    }
    AloneSurvives(t, offset, id);
  }

  /** Running the data statements again changes nothing. */
  lemma {:induction false} UpgradeIsIdempotent(t: Table, offset: int)
    ensures Upgrade(Upgrade(t, offset), offset) == Upgrade(t, offset)
  {
    var u := Upgrade(t, offset);
    UpgradeIsUnique(t, offset);
    forall id | id in u ensures u[id].date == TruncDay(u[id].date, offset) {
      TruncTwice(t[id].date, offset);
    }
    assert Normalize(u, offset) == u;
    forall id | id in u ensures id in Upgrade(u, offset) && Upgrade(u, offset)[id] == u[id] {
      assert u[id].category.Some? ==> Group(u, id) == {id};
      AloneSurvives(u, offset, id);
    }
  }

  lemma MinusCount(t: Table, gone: set<int>)
    requires gone <= t.Keys
    ensures |t - gone| == |t| - |gone|
  {
    assert (t - gone).Keys + gone == t.Keys;
    assert |(t - gone).Keys| + |gone| == |t.Keys|;
  }

  lemma UpgradeRowCount(t: Table, offset: int)
    ensures |Later(MergeIntoFirst(Normalize(t, offset)))| == |t| - |Upgrade(t, offset)|
  {
    var m := MergeIntoFirst(Normalize(t, offset));
    MinusCount(m, Later(m));
    assert m.Keys == t.Keys;
    assert |m| == |m.Keys| == |t.Keys| == |t|;
  }

  // ---------- The migration ----------

  class DailyPlan {
    const offset: int
    var rows: Table
    var constrained: bool

    constructor (rows: Table, offset: int)
      ensures this.rows == rows && this.offset == offset && !constrained
    {
      this.rows := rows;
      this.offset := offset;
      constrained := false;
    }

    /** Fails, leaving the table without the constraint, when rows collide. */
    method CreateUniqueConstraint() returns (created: bool)
      modifies this`constrained
      ensures created <==> NoneCollide(rows)
      ensures constrained == (old(constrained) || created)
    {
      UniqueMeaning(rows);
      created := Unique(rows);
      constrained := constrained || created;
    }

    method RunUpgrade() returns (deleted: nat, created: bool)
      modifies this
      ensures rows == Upgrade(old(rows), offset)
      ensures created && constrained && NoneCollide(rows)
      ensures Total(rows, rows.Keys) == Total(old(rows), old(rows).Keys)
      ensures deleted == |old(rows)| - |rows|
    {
      UpgradeIsUnique(rows, offset);
      TotalIsConserved(rows, offset);
      UpgradeRowCount(rows, offset);
      rows := Normalize(rows, offset);
      rows := MergeIntoFirst(rows);
      var later := Later(rows);
      rows := rows - later;
      deleted := |later|;
      created := CreateUniqueConstraint();
    }
  }
}
