/**
 * The group-by fold every statistic uses:
 * `rows.reduce((acc, row) => { acc[name] = (acc[name] || 0) + 1; return acc; }, {})`
 * followed by `Object.entries(acc)`, and the count ranking some statistics apply.
 */
module Grouping {
  import opened Ordering

  /** One `{name, count}` pair of a statistic. */
  datatype Entry = Entry(name: string, count: nat)

  function Labels(es: seq<Entry>): seq<string>
  {
    seq(|es|, k requires 0 <= k < |es| => es[k].name)
  }

  /** The sum of the counts. */
  function Total(es: seq<Entry>): nat
  {
    if es == [] then 0 else es[0].count + Total(es[1..])
  }

  /** No string occurs twice. */
  ghost predicate Distinct(s: seq<string>)
  {
    forall x :: multiset(s)[x] <= 1
  }

  /** The distinct labels of `ls` in order of first occurrence. */
  function Dedup(ls: seq<string>): (r: seq<string>)
    ensures Distinct(r)
    ensures forall x :: x in r <==> x in ls
  {
    if ls == [] then []
    else
      var d := Dedup(ls[..|ls| - 1]);
      var x := ls[|ls| - 1];
      assert ls == ls[..|ls| - 1] + [x];
      if x in d then d else d + [x]
  }

  /**
   * Labels come in order of first encounter: whenever `r[i]` precedes `r[j]`,
   * some occurrence of `r[i]` in `ls` comes before every occurrence of `r[j]`.
   */
  lemma {:induction false} DedupFirstEncounter(ls: seq<string>)
    ensures var r := Dedup(ls);
      forall i, j :: 0 <= i < j < |r| ==> exists p :: 0 <= p < |ls| && ls[p] == r[i] && r[j] !in ls[..p]
    decreases |ls|
  {
    if ls != [] {
      var init, x := ls[..|ls| - 1], ls[|ls| - 1];
      assert ls == init + [x];
      var d, r := Dedup(init), Dedup(ls);
      DedupFirstEncounter(init);
      DedupStep(init, x);
      forall i, j | 0 <= i < j < |r| ensures exists p :: 0 <= p < |ls| && ls[p] == r[i] && r[j] !in ls[..p] {
        if j < |d| {
          assert r[i] == d[i] && r[j] == d[j];
          var p :| 0 <= p < |init| && init[p] == d[i] && d[j] !in init[..p];
          assert ls[..p] == init[..p];
          assert ls[p] == r[i];
        } else {
          assert r == d + [x] && r[j] == x && x !in init;
          assert r[i] in init;
          var p :| 0 <= p < |init| && init[p] == r[i];
          assert ls[..p] == init[..p];
          assert ls[p] == r[i];
        }
      }
    }
  }

  /** Sum over the labels `d` of their multiplicity in `m`. */
  ghost function SumOver(d: seq<string>, m: multiset<string>): nat
  {
    if d == [] then 0 else m[d[0]] + SumOver(d[1..], m)
  }

  lemma {:induction false} SumOverAdd(d: seq<string>, m: multiset<string>, x: string)
    requires Distinct(d)
    ensures SumOver(d, m + multiset{x}) == SumOver(d, m) + (if x in d then 1 else 0)
    decreases |d|
  {
    if d != [] {
      assert d == [d[0]] + d[1..];
      assert multiset(d) == multiset{d[0]} + multiset(d[1..]);
      assert Distinct(d[1..]) by {
        forall z ensures multiset(d[1..])[z] <= 1 {
          assert multiset(d)[z] <= 1;
        }
      }
      SumOverAdd(d[1..], m, x);
      if d[0] == x {
        assert multiset(d)[x] <= 1;
      }
    }
  }

  lemma {:induction false} SumOverAppend(d: seq<string>, m: multiset<string>, x: string)
    ensures SumOver(d + [x], m) == SumOver(d, m) + m[x]
    decreases |d|
  {
    if d == [] {
      assert [x][1..] == [];
    } else {
      assert (d + [x])[1..] == d[1..] + [x];
      SumOverAppend(d[1..], m, x);
    }
  }

  lemma {:induction false} TotalIsSumOver(es: seq<Entry>, d: seq<string>, m: multiset<string>)
    requires |es| == |d|
    requires forall k :: 0 <= k < |es| ==> es[k] == Entry(d[k], m[d[k]])
    ensures Total(es) == SumOver(d, m)
    decreases |es|
  {
    if es != [] {
      TotalIsSumOver(es[1..], d[1..], m);
    }
  }

  /**
   * `es` is a grouping of `ls`: one entry per distinct name, each counting
   * that name's occurrences (so at least one), and the counts add up to |ls|.
   */
  ghost predicate CountsOf(es: seq<Entry>, ls: seq<string>)
  {
    && Distinct(Labels(es))
    && (forall x :: x in Labels(es) <==> x in ls)
    && (forall e :: e in es ==> e.count == multiset(ls)[e.name] && e.count >= 1)
    && Total(es) == |ls|
  }

  /** The grouping itself: each distinct label of `ls`, in first-encounter order, with its number of occurrences. */
  function GroupCounts(ls: seq<string>): (r: seq<Entry>)
    ensures CountsOf(r, ls)
    ensures Labels(r) == Dedup(ls)
  {
    var d := Dedup(ls);
    var r := seq(|d|, k requires 0 <= k < |d| => Entry(d[k], multiset(ls)[d[k]]));
    EntriesGroup(ls, r);
    r
  }

  /** Each occurrence in `ls` is counted once, under its own first-encounter label. */
  lemma {:induction false} DedupCovers(ls: seq<string>)
    ensures SumOver(Dedup(ls), multiset(ls)) == |ls|
    decreases |ls|
  {
    if ls != [] {
      var p, l := ls[..|ls| - 1], ls[|ls| - 1];
      assert ls == p + [l];
      DedupCovers(p);
      DedupStep(p, l);
      assert multiset(ls) == multiset(p) + multiset{l};
      SumStep(Dedup(p), multiset(p), l);
    }
  }

  /** One entry per distinct label, counting its occurrences, is a grouping. */
  lemma EntriesGroup(ls: seq<string>, r: seq<Entry>)
    requires |r| == |Dedup(ls)|
    requires forall k :: 0 <= k < |r| ==> r[k] == Entry(Dedup(ls)[k], multiset(ls)[Dedup(ls)[k]])
    ensures CountsOf(r, ls) && Labels(r) == Dedup(ls)
  {
    var d := Dedup(ls);
    assert Labels(r) == d;
    DedupCovers(ls);
    TotalIsSumOver(r, d, multiset(ls));
    forall e | e in r ensures e.count == multiset(ls)[e.name] && e.count >= 1 {
      var k :| 0 <= k < |r| && r[k] == e;
      assert d[k] in ls;
    }
  }

  /**
   * The accumulator after folding over `ls`: `order` lists its keys in
   * first-encounter order, `acc` maps each to its number of occurrences, and
   * those numbers add up to |ls|.
   */
  ghost predicate Folded(ls: seq<string>, order: seq<string>, acc: map<string, nat>)
  {
    && order == Dedup(ls)
    && (forall x :: x in acc <==> x in order)
    && (forall x :: x in acc ==> acc[x] == multiset(ls)[x])
    && SumOver(order, multiset(ls)) == |ls|
  }

  /** One step of the fold: `acc[l] = (acc[l] || 0) + 1` for the next label `l`. */
  lemma FoldStep(p: seq<string>, l: string, order: seq<string>, acc: map<string, nat>,
                 order': seq<string>, acc': map<string, nat>)
    requires Folded(p, order, acc)
    requires order' == if l in acc then order else order + [l]
    requires acc' == acc[l := if l in acc then acc[l] + 1 else 1]
    ensures Folded(p + [l], order', acc')
  {
    var m := multiset(p);
    assert multiset(p + [l]) == m + multiset{l};
    DedupStep(p, l);
    AccStep(m, l, order, acc, order', acc');
    SumStep(order, m, l);
  }

  lemma DedupStep(p: seq<string>, l: string)
    ensures Dedup(p + [l]) == if l in Dedup(p) then Dedup(p) else Dedup(p) + [l]
  {
  }

  lemma AccStep(m: multiset<string>, l: string, order: seq<string>, acc: map<string, nat>,
                order': seq<string>, acc': map<string, nat>)
    requires forall x :: x in acc <==> x in order
    requires forall x :: x in acc ==> acc[x] == m[x]
    requires l in order <==> m[l] > 0
    requires order' == if l in acc then order else order + [l]
    requires acc' == acc[l := if l in acc then acc[l] + 1 else 1]
    ensures forall x :: x in acc' <==> x in order'
    ensures forall x :: x in acc' ==> acc'[x] == (m + multiset{l})[x]
  {
  }

  lemma SumStep(order: seq<string>, m: multiset<string>, l: string)
    requires Distinct(order)
    requires l in order <==> m[l] > 0
    ensures SumOver(if l in order then order else order + [l], m + multiset{l}) == SumOver(order, m) + 1
  {
    SumOverAdd(order, m, l);
    if l !in order {
      SumOverAppend(order, m + multiset{l}, l);
    }
  }

  /**
   * The reduce into a dictionary: `acc[l] = (acc[l] || 0) + 1` for every label;
   * `order` records the order in which keys were first added.
   */
  method Fold(ls: seq<string>) returns (order: seq<string>, acc: map<string, nat>)
    ensures Folded(ls, order, acc)
  {
    order, acc := [], map[];
    ghost var seen: seq<string> := [];
    var i := 0;
    while i < |ls|
      invariant 0 <= i <= |ls| && seen == ls[..i]
      invariant Folded(seen, order, acc)
    {
      var l := ls[i];
      ghost var order0, acc0 := order, acc;
      if l !in acc {
        order := order + [l];
      }
      acc := acc[l := (if l in acc then acc[l] else 0) + 1];
      FoldStep(seen, l, order0, acc0, order, acc);
      seen := seen + [l];
      i := i + 1;
    }
    assert seen == ls;
  }

  /** The reduce plus `Object.entries`: one entry per key, in first-encounter order. */
  method CountBy(ls: seq<string>) returns (es: seq<Entry>)
    ensures es == GroupCounts(ls)
    ensures CountsOf(es, ls)
    ensures Labels(es) == Dedup(ls)
  {
    var order, acc := Fold(ls);
    es := seq(|order|, k requires 0 <= k < |order| => Entry(order[k], acc[order[k]]));
  }

  lemma {:induction false} TotalAppend(a: seq<Entry>, b: seq<Entry>)
    ensures Total(a + b) == Total(a) + Total(b)
    decreases |a|
  {
    if a == [] {
      assert a + b == b;
    } else {
      assert (a + b)[1..] == a[1..] + b;
      TotalAppend(a[1..], b);
    }
  }

  /** Taking the entry at `j` out lowers the total by its count. */
  lemma {:induction false} RemoveAtTotal(b: seq<Entry>, j: nat)
    requires j < |b|
    ensures Total(b) == Total(b[..j] + b[j + 1..]) + b[j].count
    decreases j
  {
    if j == 0 {
      assert b[..0] + b[1..] == b[1..];
    } else {
      RemoveAtTotal(b[1..], j - 1);
      assert b[..j] + b[j + 1..] == [b[0]] + (b[1..][..j - 1] + b[1..][j..]);
    }
  }

  /** Taking the entry at `j` out removes its name once. */
  lemma RemoveAtLabels(b: seq<Entry>, j: nat)
    requires j < |b|
    ensures multiset(Labels(b)) == multiset(Labels(b[..j] + b[j + 1..])) + multiset{b[j].name}
  {
    assert Labels(b) == Labels(b[..j]) + [b[j].name] + Labels(b[j + 1..]);
    assert Labels(b[..j] + b[j + 1..]) == Labels(b[..j]) + Labels(b[j + 1..]);
  }

  /** Removing the first entry of `a` and an equal entry of its permutation `b` leaves permutations. */
  lemma PermutationRest(a: seq<Entry>, b: seq<Entry>, j: nat)
    requires multiset(a) == multiset(b) && a != [] && j < |b| && b[j] == a[0]
    ensures multiset(a[1..]) == multiset(b[..j] + b[j + 1..])
  {
    assert a == [a[0]] + a[1..];
    assert b == b[..j] + [b[j]] + b[j + 1..];
    forall z ensures multiset(a[1..])[z] == multiset(b[..j] + b[j + 1..])[z] {
      assert multiset(a)[z] == multiset(b)[z];
    }
  }

  /** Reordering the entries keeps their total. */
  lemma {:induction false} PermutationKeepsTotal(a: seq<Entry>, b: seq<Entry>)
    requires multiset(a) == multiset(b)
    ensures Total(a) == Total(b)
    decreases |a|
  {
    if a == [] {
      assert b == [];
    } else {
      assert a[0] in multiset(b);
      var j :| 0 <= j < |b| && b[j] == a[0];
      PermutationRest(a, b, j);
      PermutationKeepsTotal(a[1..], b[..j] + b[j + 1..]);
      RemoveAtTotal(b, j);
    }
  }

  /** Reordering the entries keeps their names. */
  lemma {:induction false} PermutationKeepsLabels(a: seq<Entry>, b: seq<Entry>)
    requires multiset(a) == multiset(b)
    ensures multiset(Labels(a)) == multiset(Labels(b))
    decreases |a|
  {
    if a == [] {
      assert b == [];
    } else {
      assert a[0] in multiset(b);
      var j :| 0 <= j < |b| && b[j] == a[0];
      PermutationRest(a, b, j);
      PermutationKeepsLabels(a[1..], b[..j] + b[j + 1..]);
      assert Labels(a) == [a[0].name] + Labels(a[1..]);
      RemoveAtLabels(b, j);
    }
  }

  lemma PermutationKeepsCountsOf(a: seq<Entry>, b: seq<Entry>, ls: seq<string>)
    requires multiset(a) == multiset(b)
    requires CountsOf(a, ls)
    ensures CountsOf(b, ls)
  {
    PermutationKeepsTotal(a, b);
    PermutationKeepsLabels(a, b);
    forall x ensures x in Labels(b) <==> x in Labels(a) {
      assert x in Labels(b) <==> x in multiset(Labels(b));
      assert x in Labels(a) <==> x in multiset(Labels(a));
    }
    forall e | e in b ensures e in a {
      assert e in multiset(b);
    }
  }

  /** Counts never increase along the sequence. */
  ghost predicate NonIncreasing(es: seq<Entry>)
  {
    forall i, j :: 0 <= i < j < |es| ==> es[i].count >= es[j].count
  }

  /** The comparator `(a, b) => b.count - a.count`: larger counts first. */
  function ByCountDesc(): (Entry, Entry) -> bool
  {
    (a: Entry, b: Entry) => a.count > b.count
  }

  /** The comparator is a strict weak order on every grouping, and ties never swap. */
  lemma ByCountDescIsWeakOrder(es: seq<Entry>)
    ensures StrictWeakOn(es, ByCountDesc())
    ensures forall a, b :: a in es && b in es && a.count == b.count ==> !ByCountDesc()(a, b)
  {
  }

  /** `.sort((a, b) => b.count - a.count)`: a stable reordering by descending count. */
  function RankByCount(es: seq<Entry>): (r: seq<Entry>)
    ensures multiset(r) == multiset(es)
    ensures NonIncreasing(r)
  {
    SortBySorted(es, ByCountDesc());
    SortBy(es, ByCountDesc())
  }

  /** The count of an entry, the key ties are judged by. */
  function CountOf(e: Entry): nat
  {
    e.count
  }

  /** The sort is stable: entries with equal counts keep their relative order. */
  lemma RankKeepsTies(es: seq<Entry>)
    ensures forall c :: WithKey(RankByCount(es), CountOf, c) == WithKey(es, CountOf, c)
  {
    forall c ensures WithKey(RankByCount(es), CountOf, c) == WithKey(es, CountOf, c) {
      ByCountDescIsWeakOrder(es);
      SortKeepsKey(es, ByCountDesc(), CountOf, c);
    }
  }

  /** The entries of equal count a prefix keeps come first among those of the whole sequence. */
  lemma TakeKeepsTies(es: seq<Entry>, n: nat)
    ensures forall c :: WithKey(Take(es, n), CountOf, c) <= WithKey(es, CountOf, c)
  {
    if n < |es| {
      assert es == es[..n] + es[n..];
      forall c ensures WithKey(es[..n], CountOf, c) <= WithKey(es, CountOf, c) {
        WithKeyAppend(es[..n], es[n..], CountOf, c);
      }
    }
  }

  /** `.slice(0, n)`: the first `n` entries, or all of them when there are fewer. */
  function Take(es: seq<Entry>, n: nat): (r: seq<Entry>)
    ensures r <= es
    ensures |r| == if |es| <= n then |es| else n
  {
    if |es| <= n then es else es[..n]
  }

  /** A prefix of a sequence with distinct names has distinct names, and its entries come from it. */
  lemma PrefixOfDistinct(s: seq<Entry>, n: nat)
    requires n <= |s| && Distinct(Labels(s))
    ensures Distinct(Labels(s[..n]))
    ensures forall e :: e in s[..n] ==> e in s
  {
    assert s == s[..n] + s[n..];
    assert Labels(s) == Labels(s[..n]) + Labels(s[n..]);
    forall x ensures multiset(Labels(s[..n]))[x] <= 1 {
      assert multiset(Labels(s))[x] <= 1;
    }
  }

  /** In a ranked grouping, a name outside the first `n` entries counts no more than any of them. */
  lemma PrefixHoldsLargest(s: seq<Entry>, ls: seq<string>, n: nat)
    requires n <= |s| && CountsOf(s, ls) && NonIncreasing(s)
    ensures forall x :: x in ls && x !in Labels(s[..n]) ==> forall e :: e in s[..n] ==> multiset(ls)[x] <= e.count
  {
    assert forall p :: 0 <= p < n ==> Labels(s[..n])[p] == s[p].name;
    forall x, e | x in ls && x !in Labels(s[..n]) && e in s[..n] ensures multiset(ls)[x] <= e.count {
      assert x in Labels(s);
      var p :| 0 <= p < |s| && s[p].name == x;
      var q :| 0 <= q < n && s[..n][q] == e;
      assert s[p] in s;
    }
  }

  /**
   * Ranking a grouping and keeping its first `n` entries keeps the `n` largest:
   * every name left out occurs no more often than any name kept.
   */
  lemma TopKeepsLargest(es: seq<Entry>, ls: seq<string>, n: nat)
    requires CountsOf(es, ls)
    ensures var r := Take(RankByCount(es), n);
      && |r| == (if |es| <= n then |es| else n)
      && NonIncreasing(r)
      && Distinct(Labels(r))
      && (forall e :: e in r ==> e in es)
      && (forall x :: x in ls && x !in Labels(r) ==> forall e :: e in r ==> multiset(ls)[x] <= e.count)
  {
    var s := RankByCount(es);
    PermutationKeepsCountsOf(es, s, ls);
    var k := if |s| <= n then |s| else n;
    assert Take(s, n) == s[..k];
    PrefixOfDistinct(s, k);
    PrefixHoldsLargest(s, ls, k);
    forall e | e in s ensures e in es {
      assert e in multiset(s);
    }
  }
}
