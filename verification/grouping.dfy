/** The "group into a record, then rank" pattern the report screens use:
    one pass over a list adds each element to the entry of its key in a
    record, then the record's entries are sorted by a rank, highest first,
    and the first five are kept.

    A tally keeps its groups in the order their keys first appear (the
    insertion order `Object.values` reports for keys that are not array
    indices). The sort is JavaScript's stable sort on a descending rank. */
module Grouping {
  import opened Collections

  /** One entry of the record: the key, the name taken from the first
      element with that key, and two running sums. */
  datatype Group = Group(key: string, name: string, count: int, total: int)

  predicate HasKey(gs: seq<Group>, k: string)
  {
    exists i :: 0 <= i < |gs| && gs[i].key == k
  }

  predicate DistinctKeys(gs: seq<Group>)
  {
    forall i, j :: 0 <= i < j < |gs| ==> gs[i].key != gs[j].key
  }

  /** Reference definition of a group's sum: `f` summed over the elements
      whose key is `k`. */
  function SumWhere<T>(xs: seq<T>, key: T -> string, k: string, f: T -> int): int
  {
    if |xs| == 0 then 0
    else SumWhere(xs[..|xs| - 1], key, k, f) + (if key(xs[|xs| - 1]) == k then f(xs[|xs| - 1]) else 0)
  }

  /** Position of the first element with key `k`. */
  function FirstWithKey<T>(xs: seq<T>, key: T -> string, k: string): (r: Option<nat>)
    ensures r.None? <==> forall j :: 0 <= j < |xs| ==> key(xs[j]) != k
    ensures r.Some? ==> r.value < |xs| && key(xs[r.value]) == k
    ensures r.Some? ==> forall j :: 0 <= j < r.value ==> key(xs[j]) != k
  {
    FindFirst(xs, (x: T) => key(x) == k)
  }

  /** Sum of the `count` fields of a list of groups. */
  function CountTotal(gs: seq<Group>): int
  {
    if |gs| == 0 then 0 else CountTotal(gs[..|gs| - 1]) + gs[|gs| - 1].count
  }

  /** Adding `c` to the count of one group adds `c` to the counts' sum. */
  lemma {:induction false} CountTotalBump(gs: seq<Group>, i: nat, c: int, a: int)
    requires i < |gs|
    ensures CountTotal(gs[i := gs[i].(count := gs[i].count + c, total := gs[i].total + a)]) == CountTotal(gs) + c
    decreases |gs|
  {
    var g := gs[i := gs[i].(count := gs[i].count + c, total := gs[i].total + a)];
    if i < |gs| - 1 {
      var front := gs[..|gs| - 1];
      CountTotalBump(front, i, c, a);
      assert g[..|g| - 1] == front[i := front[i].(count := front[i].count + c, total := front[i].total + a)];
    } else {
      assert g[..|g| - 1] == gs[..|gs| - 1];
    }
  }

  /** One step of the tally: the group with key `k` grows by `c` and `a`,
      or a new group is appended after all existing ones. */
  function AddTo(gs: seq<Group>, k: string, l: string, c: int, a: int): (r: seq<Group>)
    requires DistinctKeys(gs)
    ensures DistinctKeys(r) && HasKey(r, k)
    ensures |r| == if HasKey(gs, k) then |gs| else |gs| + 1
    ensures !HasKey(gs, k) ==> r[|gs|] == Group(k, l, c, a)
    ensures forall i :: 0 <= i < |gs| ==> r[i].key == gs[i].key && r[i].name == gs[i].name
    ensures forall i :: 0 <= i < |gs| ==> r[i].count == gs[i].count + (if gs[i].key == k then c else 0)
    ensures forall i :: 0 <= i < |gs| ==> r[i].total == gs[i].total + (if gs[i].key == k then a else 0)
    ensures CountTotal(r) == CountTotal(gs) + c
  {
    match FindFirst(gs, (g: Group) => g.key == k)
    case None =>
      var r := gs + [Group(k, l, c, a)];
      assert r[..|r| - 1] == gs;
      assert r[|gs|].key == k;
      r
    case Some(i) =>
      CountTotalBump(gs, i, c, a);
      var r := gs[i := gs[i].(count := gs[i].count + c, total := gs[i].total + a)];
      assert r[i].key == k;
      r
  }

  /** The record built by one pass over `xs`. */
  function Tally<T>(xs: seq<T>, key: T -> string, nameOf: T -> string, count: T -> int, amount: T -> int): (r: seq<Group>)
    ensures DistinctKeys(r)
  {
    if |xs| == 0 then []
    else
      var x := xs[|xs| - 1];
      AddTo(Tally(xs[..|xs| - 1], key, nameOf, count, amount), key(x), nameOf(x), count(x), amount(x))
  }

  /** A key no element carries sums to nothing. */
  lemma {:induction false} SumWhereAbsent<T>(xs: seq<T>, key: T -> string, k: string, f: T -> int)
    requires forall j :: 0 <= j < |xs| ==> key(xs[j]) != k
    ensures SumWhere(xs, key, k, f) == 0
    decreases |xs|
  {
    if |xs| > 0 {
      SumWhereAbsent(xs[..|xs| - 1], key, k, f);
    }
  }

  /** Summing over the kept elements only is summing a function that is
      zero on the dropped ones. */
  lemma {:induction false} SumWhereFilter<T>(xs: seq<T>, keep: T -> bool, key: T -> string, k: string,
                                             f: T -> int, g: T -> int)
    requires forall x :: g(x) == if keep(x) then f(x) else 0
    ensures SumWhere(Filter(xs, keep), key, k, f) == SumWhere(xs, key, k, g)
    decreases |xs|
  {
    if |xs| > 0 {
      var front := xs[..|xs| - 1];
      var x := xs[|xs| - 1];
      SumWhereFilter(front, keep, key, k, f, g);
      if keep(x) {
        var kept := Filter(front, keep) + [x];
        assert kept[..|kept| - 1] == Filter(front, keep);
      }
    }
  }

  /** The first element with a key, in terms of the list without its last element. */
  lemma FirstWithKeyLast<T>(xs: seq<T>, key: T -> string, k: string)
    requires |xs| > 0
    ensures var front := xs[..|xs| - 1];
      FirstWithKey(xs, key, k) ==
        if FirstWithKey(front, key, k).Some? then FirstWithKey(front, key, k)
        else if key(xs[|xs| - 1]) == k then Some(|xs| - 1) else None
  {
    var front := xs[..|xs| - 1];
    assert forall j :: 0 <= j < |front| ==> xs[j] == front[j];
  }

  /** Every key that occurs has a group. */
  lemma {:induction false} TallyCovers<T>(xs: seq<T>, key: T -> string, nameOf: T -> string, count: T -> int, amount: T -> int)
    ensures forall j :: 0 <= j < |xs| ==> HasKey(Tally(xs, key, nameOf, count, amount), key(xs[j]))
    decreases |xs|
  {
    if |xs| > 0 {
      var front := xs[..|xs| - 1];
      var t := Tally(front, key, nameOf, count, amount);
      var r := Tally(xs, key, nameOf, count, amount);
      TallyCovers(front, key, nameOf, count, amount);
      forall j | 0 <= j < |xs| - 1
        ensures HasKey(r, key(xs[j]))
      {
        assert xs[j] == front[j];
        var i :| 0 <= i < |t| && t[i].key == key(front[j]);
        assert r[i].key == t[i].key;
      }
    }
  }

  /** Every group's key occurs. */
  lemma {:induction false} TallyOnlyOccurring<T>(xs: seq<T>, key: T -> string, nameOf: T -> string, count: T -> int, amount: T -> int)
    ensures forall i :: 0 <= i < |Tally(xs, key, nameOf, count, amount)| ==>
      FirstWithKey(xs, key, Tally(xs, key, nameOf, count, amount)[i].key).Some?
    decreases |xs|
  {
    if |xs| > 0 {
      var front := xs[..|xs| - 1];
      var x := xs[|xs| - 1];
      var t := Tally(front, key, nameOf, count, amount);
      var r := Tally(xs, key, nameOf, count, amount);
      TallyOnlyOccurring(front, key, nameOf, count, amount);
      forall i | 0 <= i < |r|
        ensures FirstWithKey(xs, key, r[i].key).Some?
      {
        FirstWithKeyLast(xs, key, r[i].key);
        if i < |t| {
          assert r[i].key == t[i].key;
          assert FirstWithKey(front, key, t[i].key).Some?;
        } else {
          assert r[i].key == key(x);
          assert key(xs[|xs| - 1]) == r[i].key;
        }
      }
    }
  }

  /** A group created by the last element is for a key no earlier element has. */
  lemma NewKeyIsFresh<T>(xs: seq<T>, key: T -> string, nameOf: T -> string, count: T -> int, amount: T -> int, k: string)
    requires !HasKey(Tally(xs, key, nameOf, count, amount), k)
    ensures forall j :: 0 <= j < |xs| ==> key(xs[j]) != k
  {
    TallyCovers(xs, key, nameOf, count, amount);
  }

  /** The group's sums are those of exactly the elements with its key. */
  predicate SumsOf<T>(xs: seq<T>, key: T -> string, count: T -> int, amount: T -> int, g: Group)
  {
    g.count == SumWhere(xs, key, g.key, count) && g.total == SumWhere(xs, key, g.key, amount)
  }

  /** The group's key occurs and the group bears the name of its first element. */
  predicate NamedByFirst<T>(xs: seq<T>, key: T -> string, nameOf: T -> string, g: Group)
  {
    FirstWithKey(xs, key, g.key).Some? && g.name == nameOf(xs[FirstWithKey(xs, key, g.key).value])
  }

  /** The key of `g` first occurs before the key of `h`. */
  predicate OccursBefore<T>(xs: seq<T>, key: T -> string, g: Group, h: Group)
  {
    && FirstWithKey(xs, key, g.key).Some? && FirstWithKey(xs, key, h.key).Some?
    && FirstWithKey(xs, key, g.key).value < FirstWithKey(xs, key, h.key).value
  }

  /** Each group sums the counts and amounts of exactly the elements with its key. */
  lemma {:induction false} TallySums<T>(xs: seq<T>, key: T -> string, nameOf: T -> string, count: T -> int, amount: T -> int)
    ensures forall i :: 0 <= i < |Tally(xs, key, nameOf, count, amount)| ==>
      SumsOf(xs, key, count, amount, Tally(xs, key, nameOf, count, amount)[i])
    decreases |xs|
  {
    if |xs| > 0 {
      var front := xs[..|xs| - 1];
      var x := xs[|xs| - 1];
      var t := Tally(front, key, nameOf, count, amount);
      var r := Tally(xs, key, nameOf, count, amount);
      TallySums(front, key, nameOf, count, amount);
      if !HasKey(t, key(x)) {
        NewKeyIsFresh(front, key, nameOf, count, amount, key(x));
        SumWhereAbsent(front, key, key(x), count);
        SumWhereAbsent(front, key, key(x), amount);
      }
      forall i | 0 <= i < |r|
        ensures SumsOf(xs, key, count, amount, r[i])
      {
        if i < |t| {
          assert SumsOf(front, key, count, amount, t[i]);
        }
      }
    }
  }

  /** Each group is named after the first element with its key. */
  lemma {:induction false} TallyNames<T>(xs: seq<T>, key: T -> string, nameOf: T -> string, count: T -> int, amount: T -> int)
    ensures forall i :: 0 <= i < |Tally(xs, key, nameOf, count, amount)| ==>
      NamedByFirst(xs, key, nameOf, Tally(xs, key, nameOf, count, amount)[i])
    decreases |xs|
  {
    if |xs| > 0 {
      var front := xs[..|xs| - 1];
      var x := xs[|xs| - 1];
      var t := Tally(front, key, nameOf, count, amount);
      var r := Tally(xs, key, nameOf, count, amount);
      TallyNames(front, key, nameOf, count, amount);
      forall i | 0 <= i < |r|
        ensures NamedByFirst(xs, key, nameOf, r[i])
      {
        FirstWithKeyLast(xs, key, r[i].key);
        if i < |t| {
          assert NamedByFirst(front, key, nameOf, t[i]);
          assert r[i].key == t[i].key && r[i].name == t[i].name;
          var u := FirstWithKey(front, key, t[i].key).value;
          assert xs[u] == front[u];
        } else {
          assert r[i] == Group(key(x), nameOf(x), count(x), amount(x));
          NewKeyIsFresh(front, key, nameOf, count, amount, key(x));
        }
      }
    }
  }

  /** The first occurrence of a group's key lies before the last element
      exactly when the group already existed without it. */
  lemma FirstOccurrenceOfGroup<T>(xs: seq<T>, key: T -> string, nameOf: T -> string, count: T -> int, amount: T -> int, i: nat)
    requires |xs| > 0 && i < |Tally(xs, key, nameOf, count, amount)|
    ensures FirstWithKey(xs, key, Tally(xs, key, nameOf, count, amount)[i].key).Some?
    ensures FirstWithKey(xs, key, Tally(xs, key, nameOf, count, amount)[i].key).value < |xs| - 1 <==>
      i < |Tally(xs[..|xs| - 1], key, nameOf, count, amount)|
  {
    var front := xs[..|xs| - 1];
    var x := xs[|xs| - 1];
    var t := Tally(front, key, nameOf, count, amount);
    var r := Tally(xs, key, nameOf, count, amount);
    TallyOnlyOccurring(front, key, nameOf, count, amount);
    FirstWithKeyLast(xs, key, r[i].key);
    if i < |t| {
      assert r[i].key == t[i].key;
    } else {
      assert r[i].key == key(x);
      NewKeyIsFresh(front, key, nameOf, count, amount, key(x));
    }
  }

  /** The groups come in the order their keys first occur. */
  lemma {:induction false} TallyOrder<T>(xs: seq<T>, key: T -> string, nameOf: T -> string, count: T -> int, amount: T -> int)
    ensures forall i, j :: 0 <= i < j < |Tally(xs, key, nameOf, count, amount)| ==>
      OccursBefore(xs, key, Tally(xs, key, nameOf, count, amount)[i], Tally(xs, key, nameOf, count, amount)[j])
    decreases |xs|
  {
    if |xs| > 0 {
      var front := xs[..|xs| - 1];
      var t := Tally(front, key, nameOf, count, amount);
      var r := Tally(xs, key, nameOf, count, amount);
      TallyOrder(front, key, nameOf, count, amount);
      forall i, j | 0 <= i < j < |r|
        ensures OccursBefore(xs, key, r[i], r[j])
      {
        FirstOccurrenceOfGroup(xs, key, nameOf, count, amount, i);
        FirstOccurrenceOfGroup(xs, key, nameOf, count, amount, j);
        if j < |t| {
          assert OccursBefore(front, key, t[i], t[j]);
          assert r[i].key == t[i].key && r[j].key == t[j].key;
          FirstWithKeyLast(xs, key, r[i].key);
          FirstWithKeyLast(xs, key, r[j].key);
        }
      }
    }
  }

  /** The counts of all groups add up to the counts of all elements. */
  lemma {:induction false} TallyCountTotal<T>(xs: seq<T>, key: T -> string, nameOf: T -> string, count: T -> int, amount: T -> int)
    ensures CountTotal(Tally(xs, key, nameOf, count, amount)) == SumOf(xs, count)
    decreases |xs|
  {
    if |xs| > 0 {
      TallyCountTotal(xs[..|xs| - 1], key, nameOf, count, amount);
    }
  }

  /** Highest rank first: no element ranks above one before it. */
  predicate Descending(gs: seq<Group>, rank: Group -> int)
  {
    forall i, j :: 0 <= i < j < |gs| ==> rank(gs[i]) >= rank(gs[j])
  }

  /** Places `g` before the first element that does not outrank it. */
  function Insert(g: Group, sorted: seq<Group>, rank: Group -> int): (r: seq<Group>)
    requires Descending(sorted, rank)
    ensures Descending(r, rank)
    ensures multiset(r) == multiset(sorted) + multiset{g}
    ensures |r| == |sorted| + 1
    ensures r[0] == g || (|sorted| > 0 && r[0] == sorted[0])
  {
    if |sorted| == 0 then [g]
    else if rank(sorted[0]) <= rank(g) then [g] + sorted
    else
      var rest := Insert(g, sorted[1..], rank);
      assert sorted == [sorted[0]] + sorted[1..];
      [sorted[0]] + rest
  }

  /** The groups reordered by rank, highest first. */
  function SortDescending(gs: seq<Group>, rank: Group -> int): (r: seq<Group>)
    ensures Descending(r, rank)
    ensures multiset(r) == multiset(gs)
    ensures |r| == |gs|
  {
    if |gs| == 0 then []
    else
      assert gs == [gs[0]] + gs[1..];
      Insert(gs[0], SortDescending(gs[1..], rank), rank)
  }

  /** Sequences with the same multiset have the same members. */
  lemma SameMembers(a: seq<Group>, b: seq<Group>)
    requires multiset(a) == multiset(b)
    ensures forall x :: x in a <==> x in b
  {
    forall x
      ensures x in a <==> x in b
    {
      assert x in a <==> x in multiset(a);
      assert x in b <==> x in multiset(b);
    }
  }

  /** The first `k` of a descending ranking of `gs`: ordered, drawn from
      `gs`, and whatever they leave out ranks no higher than what they keep. */
  lemma PrefixOfRanking(gs: seq<Group>, sorted: seq<Group>, k: nat, rank: Group -> int)
    requires multiset(sorted) == multiset(gs)
    requires k <= |sorted| && Descending(sorted, rank)
    ensures Descending(sorted[..k], rank)
    ensures multiset(sorted[..k]) <= multiset(gs)
    ensures forall i :: 0 <= i < k ==> sorted[i] in gs
    ensures forall g :: g in gs && g !in sorted[..k] ==> forall i :: 0 <= i < k ==> rank(g) <= rank(sorted[i])
  {
    SameMembers(sorted, gs);
    assert sorted == sorted[..k] + sorted[k..];
    assert multiset(sorted) == multiset(sorted[..k]) + multiset(sorted[k..]);
    forall g | g in gs && g !in sorted[..k]
      ensures forall i :: 0 <= i < k ==> rank(g) <= rank(sorted[i])
    {
      var m :| 0 <= m < |sorted| && sorted[m] == g;
      assert m >= k;
    }
  }

  /** The `n` highest-ranked groups, highest first;
      nothing left out ranks above anything kept. */
  function Top(gs: seq<Group>, n: nat, rank: Group -> int): (r: seq<Group>)
    ensures |r| == if |gs| < n then |gs| else n
    ensures Descending(r, rank)
    ensures multiset(r) <= multiset(gs)
    ensures forall i :: 0 <= i < |r| ==> r[i] in gs
    ensures forall g :: g in gs && g !in r ==> forall i :: 0 <= i < |r| ==> rank(g) <= rank(r[i])
  {
    var sorted := SortDescending(gs, rank);
    var k := if |gs| < n then |gs| else n;
    PrefixOfRanking(gs, sorted, k, rank);
    sorted[..k]
  }
}
