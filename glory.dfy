/** The hall-of-fame generator: picks up to eight faces for a repo from its week
    of commits (trending committers and new contributors), falls back to the
    all-time top contributors when the week was quiet, renders one badged
    avatar per face and writes the gallery to storage. Storage is a flat map
    from path to file. */
module Glory {
  import opened Wrappers
  import opened Text
  import opened Avatar
  import opened GithubTracker

  // ---------------------------------------------------------------- counting

  function Names(cs: seq<Commit>): (r: seq<string>)
    ensures |r| == |cs| && forall i :: 0 <= i < |cs| ==> r[i] == cs[i].username
  {
    seq(|cs|, i requires 0 <= i < |cs| => cs[i].username)
  }

  predicate Distinct<T(==)>(xs: seq<T>) {
    forall i, j :: 0 <= i < j < |xs| ==> xs[i] != xs[j]
  }

  /** The names in order of first appearance: the key order of an insertion-ordered dict. */
  function FirstOccurrences(xs: seq<string>): (r: seq<string>)
    ensures forall x :: x in r <==> x in xs
    ensures Distinct(r)
  {
    if xs == [] then []
    else
      var p := FirstOccurrences(xs[..|xs| - 1]);
      if xs[|xs| - 1] in p then p else p + [xs[|xs| - 1]]
  }

  /** `list(contributors.items())` after the counting loop of `_count_commits`. */
  function Tally(cs: seq<Commit>): (r: seq<(string, int)>)
    ensures |r| == |FirstOccurrences(Names(cs))|
  {
    var us := FirstOccurrences(Names(cs));
    seq(|us|, i requires 0 <= i < |us| => (us[i], multiset(Names(cs))[us[i]]))
  }

  /** One entry per distinct committer, in order of first commit, with the number
      of commits that committer made. */
  lemma TallyCounts(cs: seq<Commit>)
    ensures var r := Tally(cs);
      && (forall i :: 0 <= i < |r| ==> r[i].0 in Names(cs) && r[i].1 == multiset(Names(cs))[r[i].0] && r[i].1 >= 1)
      && (forall c :: c in cs ==> exists i :: 0 <= i < |r| && r[i].0 == c.username)
      && (forall i, j :: 0 <= i < j < |r| ==> r[i].0 != r[j].0)
  {
    var r := Tally(cs);
    var us := FirstOccurrences(Names(cs));
    forall i | 0 <= i < |r|
      ensures r[i].0 in Names(cs) && r[i].1 == multiset(Names(cs))[r[i].0] && r[i].1 >= 1
    {
      assert r[i].0 == us[i] && us[i] in us;
      assert us[i] in multiset(Names(cs));
    }
    forall c | c in cs
      ensures exists i :: 0 <= i < |r| && r[i].0 == c.username
    {
      var k :| 0 <= k < |cs| && cs[k] == c;
      assert Names(cs)[k] == c.username;
      assert c.username in us;
      var i :| 0 <= i < |us| && us[i] == c.username;
      assert r[i].0 == c.username;
    }
  }

  predicate SortedByCount(xs: seq<(string, int)>) {
    forall i, j :: 0 <= i < j < |xs| ==> xs[i].1 >= xs[j].1
  }

  /** Puts `x` after every element whose count is at least its own. */
  function InsertByCount(x: (string, int), s: seq<(string, int)>): (r: seq<(string, int)>)
    ensures multiset(r) == multiset(s) + multiset{x}
  {
    if s == [] then [x]
    else if s[0].1 >= x.1 then
      assert s == [s[0]] + s[1..];
      [s[0]] + InsertByCount(x, s[1..])
    else [x] + s
  }

  /** `list.sort(key=count, reverse=True)`: stable, descending by count. */
  function SortByCount(xs: seq<(string, int)>): (r: seq<(string, int)>)
    ensures multiset(r) == multiset(xs)
    ensures |r| == |xs|
  {
    if xs == [] then []
    else
      assert xs == xs[..|xs| - 1] + [xs[|xs| - 1]];
      var r := InsertByCount(xs[|xs| - 1], SortByCount(xs[..|xs| - 1]));
      assert |r| == |multiset(r)|;
      r
  }

  lemma {:induction false} InsertSorted(x: (string, int), s: seq<(string, int)>)
    requires SortedByCount(s)
    ensures SortedByCount(InsertByCount(x, s))
  {
    if s != [] && s[0].1 >= x.1 {
      InsertSorted(x, s[1..]);
      var t := InsertByCount(x, s[1..]);
      forall y | y in t ensures s[0].1 >= y.1 {
        assert y in multiset(t);
        if y != x {
          assert y in multiset(s[1..]);
        }
      }
      assert forall j :: 0 < j < |[s[0]] + t| ==> ([s[0]] + t)[j] == t[j - 1];
    }
  }

  lemma {:induction false} SortSorted(xs: seq<(string, int)>)
    ensures SortedByCount(SortByCount(xs))
  {
    if xs != [] {
      SortSorted(xs[..|xs| - 1]);
      InsertSorted(xs[|xs| - 1], SortByCount(xs[..|xs| - 1]));
    }
  }

  /** The elements with count `k`, in order. */
  function WithCount(xs: seq<(string, int)>, k: int): seq<(string, int)> {
    if xs == [] then [] else (if xs[0].1 == k then [xs[0]] else []) + WithCount(xs[1..], k)
  }

  lemma {:induction false} WithCountAppend(a: seq<(string, int)>, b: seq<(string, int)>, k: int)
    ensures WithCount(a + b, k) == WithCount(a, k) + WithCount(b, k)
  {
    if a == [] {
      assert a + b == b;
    } else {
      var h := if a[0].1 == k then [a[0]] else [];
      assert (a + b)[0] == a[0];
      assert (a + b)[1..] == a[1..] + b;
      WithCountAppend(a[1..], b, k);
      calc {
        WithCount(a + b, k);
        h + WithCount(a[1..] + b, k);
        h + (WithCount(a[1..], k) + WithCount(b, k));
        (h + WithCount(a[1..], k)) + WithCount(b, k);
      }
    }
  }

  lemma {:induction false} NoneWithCount(s: seq<(string, int)>, k: int)
    requires SortedByCount(s) && s != [] && s[0].1 < k
    ensures WithCount(s, k) == []
  {
    if |s| > 1 {
      NoneWithCount(s[1..], k);
    }
  }

  lemma SortedTail(s: seq<(string, int)>)
    requires SortedByCount(s) && s != []
    ensures SortedByCount(s[1..])
  {
    forall i, j | 0 <= i < j < |s[1..]| ensures s[1..][i].1 >= s[1..][j].1 {
      assert s[1..][i] == s[i + 1] && s[1..][j] == s[j + 1];
    }
  }

  lemma {:induction false} InsertStable(x: (string, int), s: seq<(string, int)>, k: int)
    requires SortedByCount(s)
    ensures WithCount(InsertByCount(x, s), k) == WithCount(s, k) + WithCount([x], k)
  {
    if s == [] {
    } else if s[0].1 >= x.1 {
      SortedTail(s);
      InsertStable(x, s[1..], k);
      var t := InsertByCount(x, s[1..]);
      var h := if s[0].1 == k then [s[0]] else [];
      assert ([s[0]] + t)[0] == s[0];
      assert ([s[0]] + t)[1..] == t;
      calc {
        WithCount(InsertByCount(x, s), k);
        WithCount([s[0]] + t, k);
        h + WithCount(t, k);
        h + (WithCount(s[1..], k) + WithCount([x], k));
        (h + WithCount(s[1..], k)) + WithCount([x], k);
        WithCount(s, k) + WithCount([x], k);
      }
    } else {
      assert ([x] + s)[1..] == s;
      if x.1 == k {
        NoneWithCount(s, k);
      }
    }
  }

  /** Sorting keeps equal counts in their original order. */
  lemma {:induction false} SortStable(xs: seq<(string, int)>, k: int)
    ensures WithCount(SortByCount(xs), k) == WithCount(xs, k)
  {
    if xs != [] {
      var init := xs[..|xs| - 1];
      SortStable(init, k);
      SortSorted(init);
      InsertStable(xs[|xs| - 1], SortByCount(init), k);
      assert xs == init + [xs[|xs| - 1]];
      WithCountAppend(init, [xs[|xs| - 1]], k);
    }
  }

  /** The dict of `_count_commits` after counting `names`: its keys in
      insertion order and each key's number of occurrences. */
  ghost predicate Counted(names: seq<string>, order: seq<string>, counts: map<string, int>) {
    && order == FirstOccurrences(names)
    && (forall u :: u in counts <==> u in order)
    && (forall u :: u in counts ==> counts[u] == multiset(names)[u])
  }

  /** `contributors[username] = contributors.get(username, 0) + 1`. */
  lemma CountedSnoc(names: seq<string>, u: string, order: seq<string>, counts: map<string, int>)
    requires Counted(names, order, counts)
    ensures Counted(names + [u], if u in counts then order else order + [u], counts[u := (if u in counts then counts[u] else 0) + 1])
  {
    var ns := names + [u];
    assert ns[..|ns| - 1] == names;
    assert FirstOccurrences(ns) == if u in order then order else order + [u];
    assert multiset(ns) == multiset(names) + multiset{u};
  }

  lemma TakeSnoc<T>(s: seq<T>, i: nat)
    requires i < |s|
    ensures s[..i + 1] == s[..i] + [s[i]]
  {
  }

  /** The items of the dict after counting every commit are the tally. */
  lemma CountedTally(commits: seq<Commit>, order: seq<string>, counts: map<string, int>)
    requires Counted(Names(commits), order, counts)
    ensures seq(|order|, j requires 0 <= j < |order| => (order[j], counts[order[j]])) == Tally(commits)
  {
  }

  /** `_count_commits`. */
  method CountCommits(commits: seq<Commit>) returns (r: seq<(string, int)>)
    ensures r == SortByCount(Tally(commits))
  {
    ghost var names := Names(commits);
    var order: seq<string> := [];
    var counts: map<string, int> := map[];
    var i := 0;
    while i < |commits|
      invariant 0 <= i <= |commits|
      invariant Counted(names[..i], order, counts)
    {
      var username := commits[i].username;
      TakeSnoc(names, i);
      CountedSnoc(names[..i], username, order, counts);
      if username !in counts {
        order := order + [username];
      }
      counts := counts[username := (if username in counts then counts[username] else 0) + 1];
      i := i + 1;
    }
    assert names[..i] == names;
    CountedTally(commits, order, counts);
    r := SortByCount(seq(|order|, j requires 0 <= j < |order| => (order[j], counts[order[j]])));
  }

  /** The counted list is sorted by descending count, holds the same entries as
      the tally, and keeps committers with equal counts in order of first commit. */
  lemma CountedContributors(commits: seq<Commit>)
    ensures var r := SortByCount(Tally(commits));
      && SortedByCount(r)
      && multiset(r) == multiset(Tally(commits))
      && forall k :: WithCount(r, k) == WithCount(Tally(commits), k)
  {
    SortSorted(Tally(commits));
    forall k ensures WithCount(SortByCount(Tally(commits)), k) == WithCount(Tally(commits), k) {
      SortStable(Tally(commits), k);
    }
  }

  /** No username names two entries. */
  predicate DistinctNames(xs: seq<(string, int)>) {
    forall i, j :: 0 <= i < j < |xs| ==> xs[i].0 != xs[j].0
  }

  lemma ConsDistinctNames(a: (string, int), t: seq<(string, int)>)
    requires DistinctNames(t) && forall k :: 0 <= k < |t| ==> t[k].0 != a.0
    ensures DistinctNames([a] + t)
  {
    forall i, j | 0 <= i < j < |[a] + t| ensures ([a] + t)[i].0 != ([a] + t)[j].0 {
      assert ([a] + t)[j] == t[j - 1];
      if i > 0 {
        assert ([a] + t)[i] == t[i - 1];
      }
    }
  }

  lemma {:induction false} InsertDistinctNames(x: (string, int), s: seq<(string, int)>)
    requires DistinctNames(s) && forall y :: y in s ==> y.0 != x.0
    ensures DistinctNames(InsertByCount(x, s))
  {
    if s == [] {
    } else if s[0].1 >= x.1 {
      var t := InsertByCount(x, s[1..]);
      InsertDistinctNames(x, s[1..]);
      forall k | 0 <= k < |t| ensures t[k].0 != s[0].0 {
        assert t[k] in multiset(s[1..]) + multiset{x} by {
          assert t[k] in multiset(t);
        }
        if t[k] != x {
          var j :| 0 <= j < |s[1..]| && s[1..][j] == t[k];
          assert s[j + 1] == t[k];
        }
      }
      ConsDistinctNames(s[0], t);
    } else {
      ConsDistinctNames(x, s);
    }
  }

  /** Sorting moves entries but never merges two users. */
  lemma {:induction false} SortDistinctNames(xs: seq<(string, int)>)
    requires DistinctNames(xs)
    ensures DistinctNames(SortByCount(xs))
    decreases |xs|
  {
    if xs != [] {
      var init := xs[..|xs| - 1];
      var x := xs[|xs| - 1];
      SortDistinctNames(init);
      forall y | y in SortByCount(init) ensures y.0 != x.0 {
        assert y in multiset(SortByCount(init));
        var j :| 0 <= j < |init| && init[j] == y;
        assert xs[j] == y;
      }
      InsertDistinctNames(x, SortByCount(init));
    }
  }

  /** The counted list holds each committer once. */
  lemma CountedDistinct(commits: seq<Commit>)
    ensures DistinctNames(SortByCount(Tally(commits)))
    ensures Distinct(SortByCount(Tally(commits)))
  {
    TallyCounts(commits);
    SortDistinctNames(Tally(commits));
  }

  // ---------------------------------------------------------------- trending and new

  datatype Slot = NewFace | TrendingSlot

  /** Which list each counted contributor joins, in order, with `nNew` new faces
      and `nTrend` trending users placed so far; the walk ends at the first
      contributor who fits neither list. */
  function Walk(cs: seq<(string, int)>, ns: set<string>, nNew: nat, nTrend: nat): (w: seq<Slot>)
    ensures |w| <= |cs|
  {
    if cs == [] then []
    else if cs[0].0 in ns && nNew < 3 then [NewFace] + Walk(cs[1..], ns, nNew + 1, nTrend)
    else if nTrend < 5 then [TrendingSlot] + Walk(cs[1..], ns, nNew, nTrend + 1)
    else []
  }

  /** The elements of `xs` whose slot is `s`, in order. */
  function Pick<T>(xs: seq<T>, w: seq<Slot>, s: Slot): seq<T>
    requires |w| == |xs|
  {
    if w == [] then []
    else Pick(xs[..|xs| - 1], w[..|w| - 1], s) + (if w[|w| - 1] == s then [xs[|xs| - 1]] else [])
  }

  function CountSlot(w: seq<Slot>, s: Slot): nat {
    if w == [] then 0 else CountSlot(w[..|w| - 1], s) + (if w[|w| - 1] == s then 1 else 0)
  }

  /** `_assign_trending_and_new` as a value: (trending, new_faces). */
  function Assigned(cs: seq<(string, int)>, ns: set<string>): (seq<(string, int)>, seq<(string, int)>) {
    var w := Walk(cs, ns, 0, 0);
    (Pick(cs[..|w|], w, TrendingSlot), Pick(cs[..|w|], w, NewFace))
  }

  lemma {:induction false} PickSnoc<T>(xs: seq<T>, w: seq<Slot>, x: T, s: Slot, t: Slot)
    requires |w| == |xs|
    ensures Pick(xs + [x], w + [s], t) == Pick(xs, w, t) + (if s == t then [x] else [])
    ensures CountSlot(w + [s], t) == CountSlot(w, t) + (if s == t then 1 else 0)
  {
    assert (xs + [x])[..|xs|] == xs && (w + [s])[..|w|] == w;
  }

  lemma {:induction false} PickLength<T>(xs: seq<T>, w: seq<Slot>, s: Slot)
    requires |w| == |xs|
    ensures |Pick(xs, w, s)| == CountSlot(w, s)
  {
    if w != [] {
      PickLength(xs[..|xs| - 1], w[..|w| - 1], s);
    }
  }

  lemma {:induction false} PickMember<T>(xs: seq<T>, w: seq<Slot>, s: Slot, x: T)
    requires |w| == |xs| && x in Pick(xs, w, s)
    ensures exists i :: 0 <= i < |xs| && w[i] == s && xs[i] == x
  {
    var init := Pick(xs[..|xs| - 1], w[..|w| - 1], s);
    if x in init {
      PickMember(xs[..|xs| - 1], w[..|w| - 1], s, x);
      var i :| 0 <= i < |xs| - 1 && w[..|w| - 1][i] == s && xs[..|xs| - 1][i] == x;
      assert w[i] == s && xs[i] == x;
    } else {
      assert w[|w| - 1] == s && xs[|xs| - 1] == x;
    }
  }

  /** `a` is an order-preserving subsequence of `b`. */
  predicate Subseq<T(==)>(a: seq<T>, b: seq<T>)
    decreases |b|
  {
    if a == [] then true
    else if b == [] then false
    else (a[|a| - 1] == b[|b| - 1] && Subseq(a[..|a| - 1], b[..|b| - 1])) || Subseq(a, b[..|b| - 1])
  }

  lemma {:induction false} PickSubseq<T>(xs: seq<T>, w: seq<Slot>, s: Slot)
    requires |w| == |xs|
    ensures Subseq(Pick(xs, w, s), xs)
  {
    if w != [] {
      var xs' := xs[..|xs| - 1];
      var p := Pick(xs', w[..|w| - 1], s);
      PickSubseq(xs', w[..|w| - 1], s);
      if w[|w| - 1] == s {
        assert (p + [xs[|xs| - 1]])[..|p|] == p;
      } else {
        assert Pick(xs, w, s) == p;
      }
    }
  }

  lemma {:induction false} SubseqExtend<T>(a: seq<T>, b: seq<T>, k: nat)
    requires k <= |b| && Subseq(a, b[..k])
    ensures Subseq(a, b)
    decreases |b| - k
  {
    if k < |b| {
      assert b[..k + 1][..k] == b[..k];
      if a != [] {
        assert Subseq(a, b[..k + 1]);
      } else {
        assert Subseq(a, b[..k + 1]);
      }
      SubseqExtend(a, b, k + 1);
    } else {
      assert b[..k] == b;
    }
  }

  lemma {:induction false} WalkStep(cs: seq<(string, int)>, ns: set<string>, nNew: nat, nTrend: nat)
    requires cs != [] && Walk(cs, ns, nNew, nTrend) != []
    ensures var w := Walk(cs, ns, nNew, nTrend);
      var s := w[0];
      var a := if s == NewFace then nNew + 1 else nNew;
      var b := if s == TrendingSlot then nTrend + 1 else nTrend;
      && w == [s] + Walk(cs[1..], ns, a, b)
      && (s == NewFace <==> cs[0].0 in ns && nNew < 3)
      && (s == TrendingSlot ==> nTrend < 5)
  {
  }

  /** The new-face and trending counts stay within 3 and 5. */
  lemma {:induction false} WalkBounds(cs: seq<(string, int)>, ns: set<string>, nNew: nat, nTrend: nat)
    requires nNew <= 3 && nTrend <= 5
    ensures var w := Walk(cs, ns, nNew, nTrend);
      nNew + CountSlot(w, NewFace) <= 3 && nTrend + CountSlot(w, TrendingSlot) <= 5
  {
    var w := Walk(cs, ns, nNew, nTrend);
    if cs != [] && w != [] {
      WalkStep(cs, ns, nNew, nTrend);
      var s := w[0];
      var a := if s == NewFace then nNew + 1 else nNew;
      var b := if s == TrendingSlot then nTrend + 1 else nTrend;
      WalkBounds(cs[1..], ns, a, b);
      CountCons(s, Walk(cs[1..], ns, a, b));
    }
  }

  /** Every new face is a new contributor. */
  lemma {:induction false} WalkNewInSet(cs: seq<(string, int)>, ns: set<string>, nNew: nat, nTrend: nat)
    ensures var w := Walk(cs, ns, nNew, nTrend);
      forall i :: 0 <= i < |w| && w[i] == NewFace ==> cs[i].0 in ns
  {
    var w := Walk(cs, ns, nNew, nTrend);
    if cs != [] && w != [] {
      WalkStep(cs, ns, nNew, nTrend);
      var s := w[0];
      var a := if s == NewFace then nNew + 1 else nNew;
      var b := if s == TrendingSlot then nTrend + 1 else nTrend;
      var rest := Walk(cs[1..], ns, a, b);
      WalkNewInSet(cs[1..], ns, a, b);
      forall i | 0 < i < |w| && w[i] == NewFace ensures cs[i].0 in ns {
        assert rest[i - 1] == w[i] && cs[1..][i - 1] == cs[i];
      }
    }
  }

  /** A new contributor placed in trending arrived when the new faces were full. */
  lemma {:induction false} WalkOverflow(cs: seq<(string, int)>, ns: set<string>, nNew: nat, nTrend: nat)
    ensures var w := Walk(cs, ns, nNew, nTrend);
      forall i :: 0 <= i < |w| && w[i] == TrendingSlot && cs[i].0 in ns ==> nNew + CountSlot(w[..i], NewFace) >= 3
  {
    var w := Walk(cs, ns, nNew, nTrend);
    if cs != [] && w != [] {
      WalkStep(cs, ns, nNew, nTrend);
      var s := w[0];
      var a := if s == NewFace then nNew + 1 else nNew;
      var b := if s == TrendingSlot then nTrend + 1 else nTrend;
      var rest := Walk(cs[1..], ns, a, b);
      WalkOverflow(cs[1..], ns, a, b);
      forall i | 0 <= i < |w| && w[i] == TrendingSlot && cs[i].0 in ns
        ensures nNew + CountSlot(w[..i], NewFace) >= 3
      {
        if i == 0 {
          assert w[..0] == [];
        } else {
          assert rest[i - 1] == w[i] && cs[1..][i - 1] == cs[i];
          assert w[..i] == [s] + rest[..i - 1];
          CountCons(s, rest[..i - 1]);
        }
      }
    }
  }

  /** The walk stops early only when trending is full and the next user cannot
      be a new face. */
  lemma {:induction false} WalkStop(cs: seq<(string, int)>, ns: set<string>, nNew: nat, nTrend: nat)
    ensures var w := Walk(cs, ns, nNew, nTrend);
      |w| < |cs| ==> nTrend + CountSlot(w, TrendingSlot) >= 5 && (cs[|w|].0 !in ns || nNew + CountSlot(w, NewFace) >= 3)
  {
    var w := Walk(cs, ns, nNew, nTrend);
    if cs != [] && w != [] {
      WalkStep(cs, ns, nNew, nTrend);
      var s := w[0];
      var a := if s == NewFace then nNew + 1 else nNew;
      var b := if s == TrendingSlot then nTrend + 1 else nTrend;
      var rest := Walk(cs[1..], ns, a, b);
      WalkStop(cs[1..], ns, a, b);
      CountCons(s, rest);
      if |w| < |cs| {
        assert cs[1..][|rest|] == cs[|w|];
      }
    } else if cs != [] {
      assert w[..0] == [] && CountSlot(w, NewFace) == 0;
    }
  }

  lemma {:induction false} PickExcludes<T>(xs: seq<T>, w: seq<Slot>, s: Slot, x: T)
    requires |w| == |xs|
    requires forall j :: 0 <= j < |xs| && w[j] == s ==> xs[j] != x
    ensures x !in Pick(xs, w, s)
  {
    if w != [] {
      PickExcludes(xs[..|xs| - 1], w[..|w| - 1], s, x);
    }
  }

  lemma {:induction false} CountCons(s: Slot, w: seq<Slot>)
    ensures forall t :: CountSlot([s] + w, t) == (if s == t then 1 else 0) + CountSlot(w, t)
    decreases |w|
  {
    if w == [] {
      assert [s] + w == [s];
      assert [s][..0] == [];
    } else {
      var init := w[..|w| - 1];
      CountCons(s, init);
      assert ([s] + w)[..|w|] == [s] + init;
    }
  }

  /** The properties `_assign_trending_and_new` promises of its two lists:
      at most 3 new faces, all new contributors, and at most 5 trending users;
      both lists keep the counted order, and they are disjoint when the counted
      entries are; a new contributor goes to trending only once the new faces
      are full; the walk stops early only at a user who fits neither list. */
  lemma AssignedRules(cs: seq<(string, int)>, ns: set<string>)
    ensures var (t, n) := Assigned(cs, ns);
      var w := Walk(cs, ns, 0, 0);
      && |n| <= 3 && |t| <= 5
      && (forall x :: x in n ==> x.0 in ns)
      && Subseq(t, cs) && Subseq(n, cs)
      && (Distinct(cs) ==> forall x :: x in t ==> x !in n)
      && (forall i :: 0 <= i < |w| && w[i] == TrendingSlot && cs[i].0 in ns ==> CountSlot(w[..i], NewFace) >= 3)
      && (|w| < |cs| ==> |t| >= 5 && (cs[|w|].0 !in ns || |n| >= 3))
  {
    var w := Walk(cs, ns, 0, 0);
    var xs := cs[..|w|];
    var (t, n) := Assigned(cs, ns);
    WalkBounds(cs, ns, 0, 0);
    WalkNewInSet(cs, ns, 0, 0);
    WalkOverflow(cs, ns, 0, 0);
    WalkStop(cs, ns, 0, 0);
    PickLength(xs, w, TrendingSlot);
    PickLength(xs, w, NewFace);
    forall x | x in n ensures x.0 in ns {
      PickMember(xs, w, NewFace, x);
    }
    PickSubseq(xs, w, TrendingSlot);
    PickSubseq(xs, w, NewFace);
    SubseqExtend(t, cs, |w|);
    SubseqExtend(n, cs, |w|);
    if Distinct(cs) {
      forall x | x in t ensures x !in n {
        PickMember(xs, w, TrendingSlot, x);
        var i :| 0 <= i < |xs| && w[i] == TrendingSlot && xs[i] == x;
        forall j | 0 <= j < |xs| && w[j] == NewFace ensures xs[j] != x {
          assert j != i && xs[j] == cs[j] && xs[i] == cs[i];
        }
        PickExcludes(xs, w, NewFace, x);
      }
    }
  }

  /** One step of the walk from position `i`: the slot it takes, or the end. */
  lemma {:induction false} WalkAdvance(cs: seq<(string, int)>, ns: set<string>, i: nat, w: seq<Slot>, nNew: nat, nTrend: nat)
    requires i < |cs|
    requires Walk(cs, ns, 0, 0) == w + Walk(cs[i..], ns, nNew, nTrend)
    ensures cs[i].0 in ns && nNew < 3 ==>
      Walk(cs, ns, 0, 0) == (w + [NewFace]) + Walk(cs[i + 1..], ns, nNew + 1, nTrend)
    ensures !(cs[i].0 in ns && nNew < 3) && nTrend < 5 ==>
      Walk(cs, ns, 0, 0) == (w + [TrendingSlot]) + Walk(cs[i + 1..], ns, nNew, nTrend + 1)
    ensures !(cs[i].0 in ns && nNew < 3) && nTrend >= 5 ==> Walk(cs, ns, 0, 0) == w
  {
    assert cs[i..][0] == cs[i];
    assert cs[i..][1..] == cs[i + 1..];
    if cs[i].0 in ns && nNew < 3 {
      ConcatAssoc(w, [NewFace], Walk(cs[i + 1..], ns, nNew + 1, nTrend));
    } else if nTrend < 5 {
      ConcatAssoc(w, [TrendingSlot], Walk(cs[i + 1..], ns, nNew, nTrend + 1));
    } else {
      assert w + [] == w;
    }
  }

  /** Both picks after the slot of position `i` is known. */
  lemma PickPrefixSnoc<T>(xs: seq<T>, i: nat, w: seq<Slot>, s: Slot)
    requires i < |xs| && |w| == i
    ensures Pick(xs[..i + 1], w + [s], s) == Pick(xs[..i], w, s) + [xs[i]]
    ensures forall t :: t != s ==> Pick(xs[..i + 1], w + [s], t) == Pick(xs[..i], w, t)
  {
    assert xs[..i + 1] == xs[..i] + [xs[i]];
    PickSnoc(xs[..i], w, xs[i], s, s);
    forall t | t != s ensures Pick(xs[..i + 1], w + [s], t) == Pick(xs[..i], w, t) {
      PickSnoc(xs[..i], w, xs[i], s, t);
      assert Pick(xs[..i], w, t) + [] == Pick(xs[..i], w, t);
    }
  }

  /** `_assign_trending_and_new` on the counted contributors. */
  method AssignTrendingAndNew(contributors: seq<(string, int)>, newContributors: seq<string>)
    returns (trending: seq<(string, int)>, newFaces: seq<(string, int)>)
    ensures (trending, newFaces) == Assigned(contributors, set u | u in newContributors)
  {
    var ns := set u | u in newContributors;
    trending, newFaces := [], [];
    ghost var w: seq<Slot> := [];
    var i := 0;
    while i < |contributors|
      invariant 0 <= i <= |contributors| && |w| == i
      invariant Walk(contributors, ns, 0, 0) == w + Walk(contributors[i..], ns, |newFaces|, |trending|)
      invariant trending == Pick(contributors[..i], w, TrendingSlot)
      invariant newFaces == Pick(contributors[..i], w, NewFace)
    {
      var c := contributors[i];
      WalkAdvance(contributors, ns, i, w, |newFaces|, |trending|);
      if c.0 in ns && |newFaces| < 3 {
        PickPrefixSnoc(contributors, i, w, NewFace);
        newFaces := newFaces + [c];
        w := w + [NewFace];
      } else if |trending| < 5 {
        PickPrefixSnoc(contributors, i, w, TrendingSlot);
        trending := trending + [c];
        w := w + [TrendingSlot];
      } else {
        break;
      }
      i := i + 1;
    }
    if i == |contributors| {
      assert contributors[i..] == [];
      assert w + [] == w;
    }
  }

  // ---------------------------------------------------------------- top

  /** `top_contributors[:5]` as (username, count) pairs. */
  function TopPairs(top: seq<Contributor>): (r: seq<(string, int)>)
    ensures |r| == Min(5, |top|)
    ensures forall i :: 0 <= i < |r| ==> r[i] == (top[i].username, top[i].numCommits)
  {
    seq(Min(5, |top|), i requires 0 <= i < Min(5, |top|) => (top[i].username, top[i].numCommits))
  }

  /** `_assign_top`. */
  method AssignTop(top: seq<Contributor>) returns (topGuns: seq<(string, int)>)
    ensures topGuns == SortByCount(TopPairs(top))
  {
    topGuns := [];
    var n := Min(5, |top|);
    var i := 0;
    while i < n
      invariant 0 <= i <= n
      invariant topGuns == TopPairs(top)[..i]
    {
      topGuns := topGuns + [(top[i].username, top[i].numCommits)];
      i := i + 1;
    }
    assert TopPairs(top)[..n] == TopPairs(top);
    topGuns := SortByCount(topGuns);
  }

  /** At most the first five top contributors, re-sorted stably by descending count. */
  lemma TopRules(top: seq<Contributor>)
    ensures var r := SortByCount(TopPairs(top));
      && |r| == Min(5, |top|)
      && SortedByCount(r)
      && multiset(r) == multiset(TopPairs(top))
      && forall k :: WithCount(r, k) == WithCount(TopPairs(top), k)
  {
    SortSorted(TopPairs(top));
    forall k ensures WithCount(SortByCount(TopPairs(top)), k) == WithCount(TopPairs(top), k) {
      SortStable(TopPairs(top), k);
    }
  }

  // ---------------------------------------------------------------- make

  /** The trending, new and top lists `make` hands to `_issue_badges`. */
  function Chosen(repo: Repo): (seq<(string, int)>, seq<(string, int)>, seq<(string, int)>) {
    var tn := Assigned(SortByCount(Tally(repo.recentCommits)), set u | u in repo.newContributors);
    (tn.0, tn.1, if tn.0 == [] && tn.1 == [] then SortByCount(TopPairs(repo.topContributors)) else [])
  }

  lemma {:induction false} CountSlotSum(w: seq<Slot>)
    ensures CountSlot(w, NewFace) + CountSlot(w, TrendingSlot) == |w|
  {
    if w != [] {
      CountSlotSum(w[..|w| - 1]);
    }
  }

  /** Trending and new are both empty exactly when the week had no commits, and
      only then are top contributors shown, up to five of them. */
  lemma ChosenFallback(repo: Repo)
    ensures var c := Chosen(repo);
      && (c.0 == [] && c.1 == [] <==> repo.recentCommits == [])
      && (c.2 != [] ==> c.0 == [] && c.1 == [])
      && (repo.recentCommits == [] ==> |c.2| == Min(5, |repo.topContributors|))
  {
    var cs := SortByCount(Tally(repo.recentCommits));
    var ns := set u | u in repo.newContributors;
    var w := Walk(cs, ns, 0, 0);
    var xs := cs[..|w|];
    PickLength(xs, w, TrendingSlot);
    PickLength(xs, w, NewFace);
    CountSlotSum(w);
    if repo.recentCommits != [] {
      assert Names(repo.recentCommits)[0] in FirstOccurrences(Names(repo.recentCommits));
      assert |cs| > 0;
      assert w != [];
    } else {
      assert Names(repo.recentCommits) == [];
      assert cs == [];
    }
  }

  /** When the counted entries have distinct users, no user is in both lists. */
  lemma AssignedDisjointNames(cs: seq<(string, int)>, ns: set<string>, x: (string, int), y: (string, int))
    requires DistinctNames(cs)
    requires x in Assigned(cs, ns).0 && y in Assigned(cs, ns).1
    ensures x.0 != y.0
  {
    var w := Walk(cs, ns, 0, 0);
    var xs := cs[..|w|];
    PickMember(xs, w, TrendingSlot, x);
    PickMember(xs, w, NewFace, y);
    var i :| 0 <= i < |xs| && w[i] == TrendingSlot && xs[i] == x;
    var j :| 0 <= j < |xs| && w[j] == NewFace && xs[j] == y;
    assert xs[i] == cs[i] && xs[j] == cs[j];
    assert i < j || j < i;
  }

  /** No user is both trending and a new face. */
  lemma ChosenDisjoint(repo: Repo)
    ensures var c := Chosen(repo);
      forall x, y :: x in c.0 && y in c.1 ==> x.0 != y.0
  {
    var cs := SortByCount(Tally(repo.recentCommits));
    var ns := set u | u in repo.newContributors;
    var c := Chosen(repo);
    assert (c.0, c.1) == Assigned(cs, ns);
    CountedDistinct(repo.recentCommits);
    forall x, y | x in c.0 && y in c.1 ensures x.0 != y.0 {
      AssignedDisjointNames(cs, ns, x, y);
    }
  }

  /** Pairs tagged with the label of their list. */
  function Tagged(xs: seq<(string, int)>, l: Label): (r: seq<(string, int, Label)>)
    ensures |r| == |xs| && forall i :: 0 <= i < |xs| ==> r[i] == (xs[i].0, xs[i].1, l)
  {
    seq(|xs|, i requires 0 <= i < |xs| => (xs[i].0, xs[i].1, l))
  }

  /** `everyone`: trending first, then new faces, then top contributors. */
  function Everyone(t: seq<(string, int)>, n: seq<(string, int)>, top: seq<(string, int)>): seq<(string, int, Label)> {
    Tagged(t, Trending) + Tagged(n, New) + Tagged(top, Top)
  }

  lemma EveryoneOrder(t: seq<(string, int)>, n: seq<(string, int)>, top: seq<(string, int)>)
    ensures var e := Everyone(t, n, top);
      && |e| == |t| + |n| + |top|
      && (forall i :: 0 <= i < |t| ==> e[i] == (t[i].0, t[i].1, Trending))
      && (forall i :: 0 <= i < |n| ==> e[|t| + i] == (n[i].0, n[i].1, New))
      && (forall i :: 0 <= i < |top| ==> e[|t| + |n| + i] == (top[i].0, top[i].1, Top))
  {
  }

  // ---------------------------------------------------------------- rendering

  datatype GloryError =
    | MissingAvatar(username: string)     // KeyError on repo.avatars
    | AdornFailed(cause: AvatarError)
    | MalformedUsersLine(line: string)    // ValueError unpacking a users.csv line

  /** One rendered badge: the SVG document and the profile the link points to. */
  datatype Rendered = Rendered(doc: Node, profileUrl: string)

  /** `_map_to_sourcerer`: the Sourcerer name and avatar URL of a GitHub user. */
  function MapToSourcerer(users: map<string, string>, u: string): (r: (Option<string>, Option<string>))
    ensures r.0.Some? <==> r.1.Some?
  {
    if u !in users then (None, None) else (Some(users[u]), Some("https://sourcerer.io/avatar/" + users[u]))
  }

  /** Reference: the profile a face links to. */
  function ProfileUrl(users: map<string, string>, u: string): string {
    if u in users then "https://sourcerer.io/" + users[u] else "https://github.com/" + u
  }

  /** The document the adorner of user `u` starts from, its face image, and the
      user's profile URL. */
  function FaceSource(users: map<string, string>, avatars: map<string, string>, u: string, svc: Services)
    : Result<(Node, Option<nat>, string), GloryError>
  {
    var m := MapToSourcerer(users, u);
    if m.1.Some? then
      var svg := svc.fetchSvg(m.1.value);
      Ok((svg, FirstChildWithTag(svg.children, SvgNs + "image"), "https://sourcerer.io/" + m.0.value))
    else if u in avatars then
      Ok((SetChildAttr(GithubTemplate(), 1, XlinkHref, Value.Text(avatars[u])), Some(1), "https://github.com/" + u))
    else Err(MissingAvatar(u))
  }

  /** A mapped user's face is the Sourcerer avatar; an unmapped user's face is
      the GitHub template pointing at the stored avatar, which must exist; the
      profile is the one `ProfileUrl` gives. */
  lemma FaceSourceRules(users: map<string, string>, avatars: map<string, string>, u: string, svc: Services)
    ensures u in users ==>
      && FaceSource(users, avatars, u, svc).Ok?
      && FaceSource(users, avatars, u, svc).value.0 == svc.fetchSvg("https://sourcerer.io/avatar/" + users[u])
    ensures u !in users && u in avatars ==>
      && FaceSource(users, avatars, u, svc).Ok?
      && FaceSource(users, avatars, u, svc).value.1 == Some(1)
      && FaceSource(users, avatars, u, svc).value.0.children[1].tag == SvgNs + "image"
      && FaceSource(users, avatars, u, svc).value.0.children[1].attrs[XlinkHref] == Value.Text(avatars[u])
    ensures u !in users && u !in avatars ==> FaceSource(users, avatars, u, svc) == Err(MissingAvatar(u))
    ensures FaceSource(users, avatars, u, svc).Ok? ==> FaceSource(users, avatars, u, svc).value.2 == ProfileUrl(users, u)
  {
  }

  function Render(users: map<string, string>, avatars: map<string, string>, e: (string, int, Label), svc: Services)
    : Result<Rendered, GloryError>
  {
    match FaceSource(users, avatars, e.0, svc)
    case Err(err) => Err(err)
    case Ok(src) => RenderFrom(src, e, svc)
  }

  /** The badge of entry `e` adorned onto the document `src.0` with face image
      `src.1`, linking to `src.2`. */
  function RenderFrom(src: (Node, Option<nat>, string), e: (string, int, Label), svc: Services): Result<Rendered, GloryError> {
    match Adorned(src.0, src.1, LabelName(e.2), e.1, svc)
    case Err(err) => Err(AdornFailed(err))
    case Ok(doc) => Ok(Rendered(doc, src.2))
  }

  /** The badge of every entry, each as `Render` makes it. */
  function Renders(users: map<string, string>, avatars: map<string, string>, es: seq<(string, int, Label)>, svc: Services)
    : (r: seq<Result<Rendered, GloryError>>)
    ensures |r| == |es|
  {
    seq(|es|, i requires 0 <= i < |es| => Render(users, avatars, es[i], svc))
  }

  lemma RendersAll(users: map<string, string>, avatars: map<string, string>, es: seq<(string, int, Label)>, svc: Services)
    ensures forall i :: 0 <= i < |es| ==> Renders(users, avatars, es, svc)[i] == Render(users, avatars, es[i], svc)
  {
  }

  /** The results before the first failure, and that failure if there is one:
      the loop of `_issue_badges` stops at the first exception. */
  function UntilFailure<T, E>(rs: seq<Result<T, E>>): (r: (seq<T>, Option<E>))
    ensures |r.0| <= |rs|
    ensures r.1.None? ==> |r.0| == |rs|
    ensures forall i :: 0 <= i < |r.0| ==> rs[i] == Ok(r.0[i])
    ensures r.1.Some? ==> |r.0| < |rs| && rs[|r.0|] == Err(r.1.value)
  {
    if rs == [] then ([], None)
    else match rs[0]
      case Err(err) => ([], Some(err))
      case Ok(b) =>
        var rest := UntilFailure(rs[1..]);
        assert forall i :: 0 < i <= |rest.0| ==> rs[i] == rs[1..][i - 1];
        ([b] + rest.0, rest.1)
  }

  // ---------------------------------------------------------------- paths and files

  /** `_get_repo_dir`: user/owner/name. */
  function RepoDir(repo: Repo): string { PathJoin(PathJoin(repo.user, repo.owner), repo.name) }
  function ImageDir(repo: Repo): string { PathJoin(RepoDir(repo), "images") }
  function LinkFilePath(repo: Repo): string { PathJoin(RepoDir(repo), "links.txt") }
  function TestHtmlPath(repo: Repo): string { PathJoin(RepoDir(repo), "test.html") }

  /** `'%d.svg' % i`. */
  function ImageName(i: nat): string { NatToString(i) + ".svg" }
  function ImagePath(repo: Repo, i: nat): string { PathJoin(ImageDir(repo), ImageName(i)) }

  /** A path component with no separator in it. */
  predicate Component(s: string) { s != "" && '/' !in s }

  lemma PlainJoin(a: string, b: string)
    requires a != "" && a[|a| - 1] != '/' && (b == "" || b[0] != '/')
    ensures PathJoin(a, b) == a + "/" + b
  {
    if |b| >= 1 {
      assert b[..1] != "/";
    }
  }

  lemma PlainRepoDir(repo: Repo)
    requires Component(repo.user) && Component(repo.owner) && Component(repo.name)
    ensures RepoDir(repo) == repo.user + "/" + repo.owner + "/" + repo.name
  {
    var u, o, n := repo.user, repo.owner, repo.name;
    assert u[|u| - 1] in u && o[0] in o && n[0] in n;
    PlainJoin(u, o);
    var uo := u + "/" + o;
    assert uo[|uo| - 1] == o[|o| - 1] && o[|o| - 1] in o;
    PlainJoin(uo, n);
  }

  /** With plain components, badge i lives at user/owner/name/images/i.svg and
      the link list and the test page sit in user/owner/name. */
  lemma PlainPaths(repo: Repo, i: nat)
    requires Component(repo.user) && Component(repo.owner) && Component(repo.name)
    ensures var r := repo.user + "/" + repo.owner + "/" + repo.name;
      && RepoDir(repo) == r
      && ImagePath(repo, i) == r + "/" + "images" + "/" + ImageName(i)
      && LinkFilePath(repo) == r + "/" + "links.txt"
      && TestHtmlPath(repo) == r + "/" + "test.html"
  {
    PlainRepoDir(repo);
    var r := RepoDir(repo);
    var n := repo.name;
    assert r[|r| - 1] == n[|n| - 1] && n[|n| - 1] in n;
    PlainJoin(r, "images");
    PlainJoin(r, "links.txt");
    PlainJoin(r, "test.html");
    var d := r + "/" + "images";
    assert d[|d| - 1] == 's';
    assert IsDigit(NatToString(i)[0]);
    PlainJoin(d, ImageName(i));
  }

  /** `PathJoin(d, b)` for a `b` that is not absolute: `d` with a separator if needed, then `b`. */
  function DirPrefix(d: string): string {
    if d == "" || d[|d| - 1] == '/' then d else d + "/"
  }

  lemma JoinRelative(d: string, b: string)
    requires b == "" || b[0] != '/'
    ensures PathJoin(d, b) == DirPrefix(d) + b
  {
    if |b| >= 1 {
      assert b[..1] != "/";
    }
  }

  /** Distinct indices give distinct image paths, and no image path is the link
      list or the test page. */
  lemma ImagePathsDistinct(repo: Repo, i: nat, j: nat)
    ensures ImagePath(repo, i) == ImagePath(repo, j) ==> i == j
    ensures ImagePath(repo, i) != LinkFilePath(repo) && ImagePath(repo, i) != TestHtmlPath(repo)
  {
    var r := RepoDir(repo);
    var p := DirPrefix(r);
    assert IsDigit(NatToString(i)[0]) && IsDigit(NatToString(j)[0]);
    JoinRelative(r, "images");
    JoinRelative(r, "links.txt");
    JoinRelative(r, "test.html");
    var d := p + "images";
    assert d[|d| - 1] == 's';
    JoinRelative(d, ImageName(i));
    JoinRelative(d, ImageName(j));
    assert DirPrefix(d) == d + "/";
    if ImagePath(repo, i) == ImagePath(repo, j) {
      var a := NatToString(i);
      var b := NatToString(j);
      assert d + "/" + (a + ".svg") == d + "/" + (b + ".svg");
      assert a + ".svg" == b + ".svg";
      assert |a| == |b|;
      assert a == (a + ".svg")[..|a|];
      assert a == b;
      NatToStringInjective(i, j);
    }
    var img := ImagePath(repo, i);
    assert img[|p|] == 'i';
    assert LinkFilePath(repo)[|p|] == 'l';
    assert TestHtmlPath(repo)[|p|] == 't';
  }

  datatype File = SvgFile(doc: Node) | TextFile(text: string)

  /** The storage the gallery is written to: path -> file. */
  type Storage = map<string, File>

  predicate Under(p: string, dir: string) {
    p == dir || StartsWith(p, dir + "/")
  }

  /** `_cleanup`: the image directory's subtree and the link list removed. */
  function Cleaned(files: Storage, repo: Repo): (r: Storage)
    ensures forall p :: p in r <==> p in files && !Under(p, ImageDir(repo)) && p != LinkFilePath(repo)
    ensures forall p :: p in r ==> r[p] == files[p]
  {
    map p | p in files && !Under(p, ImageDir(repo)) && p != LinkFilePath(repo) :: files[p]
  }

  /** The files after `ks[i] := vs[i]` for each i in turn. */
  function PutAll(files: Storage, ks: seq<string>, vs: seq<File>): Storage
    requires |ks| == |vs|
  {
    if ks == [] then files
    else PutAll(files, ks[..|ks| - 1], vs[..|vs| - 1])[ks[|ks| - 1] := vs[|vs| - 1]]
  }

  /** With distinct keys every value lands under its key and nothing else changes. */
  lemma {:induction false} PutAllContents(files: Storage, ks: seq<string>, vs: seq<File>)
    requires |ks| == |vs| && Distinct(ks)
    ensures forall p :: p in PutAll(files, ks, vs) <==> p in files || p in ks
    ensures forall i :: 0 <= i < |ks| ==> PutAll(files, ks, vs)[ks[i]] == vs[i]
    ensures forall p :: p in files && p !in ks ==> PutAll(files, ks, vs)[p] == files[p]
  {
    if ks != [] {
      var n := |ks| - 1;
      PutAllContents(files, ks[..n], vs[..n]);
      assert forall p :: p in ks <==> p in ks[..n] || p == ks[n];
      forall i | 0 <= i < n ensures PutAll(files, ks, vs)[ks[i]] == vs[i] {
        assert ks[..n][i] == ks[i] && vs[..n][i] == vs[i];
      }
    }
  }

  function ImagePaths(repo: Repo, n: nat): (r: seq<string>)
    ensures |r| == n && forall i :: 0 <= i < n ==> r[i] == ImagePath(repo, i)
  {
    seq(n, i requires 0 <= i < n => ImagePath(repo, i))
  }

  function SvgFiles(bs: seq<Rendered>): (r: seq<File>)
    ensures |r| == |bs| && forall i :: 0 <= i < |bs| ==> r[i] == SvgFile(bs[i].doc)
  {
    seq(|bs|, i requires 0 <= i < |bs| => SvgFile(bs[i].doc))
  }

  /** Badge i saved as image i, in order. */
  function SaveImages(files: Storage, repo: Repo, bs: seq<Rendered>): Storage {
    PutAll(files, ImagePaths(repo, |bs|), SvgFiles(bs))
  }

  /** Every badge is stored at its own index and nothing else changes. */
  lemma SaveImagesContents(files: Storage, repo: Repo, bs: seq<Rendered>)
    ensures forall p :: p in SaveImages(files, repo, bs) <==> p in files || p in ImagePaths(repo, |bs|)
    ensures forall i :: 0 <= i < |bs| ==>
      && ImagePath(repo, i) in SaveImages(files, repo, bs)
      && SaveImages(files, repo, bs)[ImagePath(repo, i)] == SvgFile(bs[i].doc)
    ensures forall p :: p in files && p !in ImagePaths(repo, |bs|) ==> SaveImages(files, repo, bs)[p] == files[p]
  {
    var ks := ImagePaths(repo, |bs|);
    forall i, j | 0 <= i < j < |ks| ensures ks[i] != ks[j] {
      ImagePathsDistinct(repo, i, j);
    }
    PutAllContents(files, ks, SvgFiles(bs));
  }

  function Profiles(bs: seq<Rendered>): (r: seq<string>)
    ensures |r| == |bs| && forall i :: 0 <= i < |bs| ==> r[i] == bs[i].profileUrl
  {
    seq(|bs|, i requires 0 <= i < |bs| => bs[i].profileUrl)
  }

  /** One line of test.html without its newline. */
  function AnchorLine(url: string, i: nat): string {
    "<a href=\"" + url + "\"><img height=\"68px\" src=\"images/" + NatToString(i) + ".svg\"></a>"
  }

  /** Each line followed by a newline. */
  function Terminated(lines: seq<string>): string {
    if lines == [] then "" else lines[0] + "\n" + Terminated(lines[1..])
  }

  lemma {:induction false} TerminatedSnoc(lines: seq<string>, x: string)
    ensures Terminated(lines + [x]) == Terminated(lines) + x + "\n"
  {
    if lines == [] {
      assert [x][1..] == [];
    } else {
      assert (lines + [x])[1..] == lines[1..] + [x];
      TerminatedSnoc(lines[1..], x);
    }
  }

  /** The lines, each newline-terminated, are the lines and one empty field
      joined by newlines. */
  lemma {:induction false} TerminatedJoin(lines: seq<string>)
    ensures Terminated(lines) == Join(lines + [""], "\n")
  {
    if lines != [] {
      TerminatedJoin(lines[1..]);
      var xs := lines + [""];
      assert xs[1..] == lines[1..] + [""];
    }
  }

  lemma SplitTerminated(lines: seq<string>)
    requires forall i :: 0 <= i < |lines| ==> '\n' !in lines[i]
    ensures Split(Terminated(lines), '\n') == lines + [""]
  {
    TerminatedJoin(lines);
    var xs := lines + [""];
    assert forall i :: 0 <= i < |xs| ==> '\n' !in xs[i] by {
      forall i | 0 <= i < |xs| ensures '\n' !in xs[i] {
        if i < |lines| { assert xs[i] == lines[i]; }
      }
    }
    SplitJoin(xs, '\n');
  }

  function AnchorLines(urls: seq<string>, start: nat): (r: seq<string>)
    ensures |r| == |urls| && forall i :: 0 <= i < |urls| ==> r[i] == AnchorLine(urls[i], start + i)
  {
    seq(|urls|, i requires 0 <= i < |urls| => AnchorLine(urls[i], start + i))
  }

  /** test.html: one anchor per profile, image k for the k-th. */
  function Html(urls: seq<string>): string {
    Terminated(AnchorLines(urls, 0))
  }

  lemma NoNewlineInAnchor(url: string, i: nat)
    requires '\n' !in url
    ensures '\n' !in AnchorLine(url, i)
  {
    var d := NatToString(i);
    assert forall k :: 0 <= k < |d| ==> IsDigit(d[k]);
    assert '\n' !in d;
  }

  /** Line k of test.html is the anchor for profile k and image k; the file
      ends with a newline. */
  lemma HtmlLines(urls: seq<string>)
    requires forall i :: 0 <= i < |urls| ==> '\n' !in urls[i]
    ensures Split(Html(urls), '\n') == AnchorLines(urls, 0) + [""]
  {
    var lines := AnchorLines(urls, 0);
    forall i | 0 <= i < |lines| ensures '\n' !in lines[i] {
      NoNewlineInAnchor(urls[i], i);
    }
    SplitTerminated(lines);
  }

  /** The storage after the badges `rs` are written, up to the first failure;
      the link list and the test page only when every badge was made. */
  function Gallery(files: Storage, repo: Repo, rs: seq<Result<Rendered, GloryError>>): (Outcome<GloryError>, Storage) {
    var made := UntilFailure(rs);
    var saved := SaveImages(files, repo, made.0);
    if made.1.Some? then (Fail(made.1.value), saved)
    else
      var urls := Profiles(made.0);
      (Pass, saved[LinkFilePath(repo) := TextFile(Join(urls, "\n"))][TestHtmlPath(repo) := TextFile(Html(urls))])
  }

  /** `_issue_badges` as a value: the outcome and the storage after it. On a
      failure the images made so far stay and nothing else is written. */
  function Issued(files: Storage, users: map<string, string>, repo: Repo, es: seq<(string, int, Label)>, svc: Services)
    : (Outcome<GloryError>, Storage)
  {
    Gallery(files, repo, Renders(users, repo.avatars, es, svc))
  }

  /** Writing the two text files after the images keeps every image. */
  lemma TextFilesKeepImages(files: Storage, repo: Repo, bs: seq<Rendered>, link: File, html: File)
    ensures var f := SaveImages(files, repo, bs)[LinkFilePath(repo) := link][TestHtmlPath(repo) := html];
      forall i :: 0 <= i < |bs| ==> ImagePath(repo, i) in f && f[ImagePath(repo, i)] == SvgFile(bs[i].doc)
  {
    SaveImagesContents(files, repo, bs);
    forall i | 0 <= i < |bs| ensures ImagePath(repo, i) != LinkFilePath(repo) && ImagePath(repo, i) != TestHtmlPath(repo) {
      ImagePathsDistinct(repo, i, i);
    }
  }

  /** links.txt and test.html are different files. */
  lemma LinkFileNotPage(repo: Repo)
    ensures LinkFilePath(repo) != TestHtmlPath(repo)
  {
    var l, t := LinkFilePath(repo), TestHtmlPath(repo);
    assert l[|l| - 9] == 'l';
    assert t[|t| - 9] == 't';
  }

  /** On failure at badge k the images before k are saved and nothing else is
      written. */
  lemma GalleryFailed(files: Storage, repo: Repo, rs: seq<Result<Rendered, GloryError>>)
    requires Gallery(files, repo, rs).0.Fail?
    ensures var k := |UntilFailure(rs).0|;
      && k < |rs| && rs[k] == Err(Gallery(files, repo, rs).0.error)
      && Gallery(files, repo, rs).1 == SaveImages(files, repo, UntilFailure(rs).0)
  {
  }

  /** On success every badge was made and image i holds badge i. */
  lemma GalleryImages(files: Storage, repo: Repo, rs: seq<Result<Rendered, GloryError>>)
    requires Gallery(files, repo, rs).0.Pass?
    ensures var f := Gallery(files, repo, rs).1;
      forall i :: 0 <= i < |rs| ==>
        && rs[i].Ok?
        && ImagePath(repo, i) in f
        && f[ImagePath(repo, i)] == SvgFile(rs[i].value.doc)
  {
    var bs := UntilFailure(rs).0;
    var urls := Profiles(bs);
    var link, html := TextFile(Join(urls, "\n")), TextFile(Html(urls));
    TextFilesKeepImages(files, repo, bs, link, html);
    var f := SaveImages(files, repo, bs)[LinkFilePath(repo) := link][TestHtmlPath(repo) := html];
    assert Gallery(files, repo, rs).1 == f;
    forall i | 0 <= i < |rs| ensures rs[i].Ok? && ImagePath(repo, i) in f && f[ImagePath(repo, i)] == SvgFile(rs[i].value.doc) {
      assert rs[i] == Ok(bs[i]);
    }
  }

  /** On success the link list and the test page are written from the badges'
      profiles, in order. */
  lemma GalleryTexts(files: Storage, repo: Repo, rs: seq<Result<Rendered, GloryError>>)
    requires Gallery(files, repo, rs).0.Pass?
    ensures var f := Gallery(files, repo, rs).1;
      var urls := Profiles(UntilFailure(rs).0);
      && f[LinkFilePath(repo)] == TextFile(Join(urls, "\n"))
      && f[TestHtmlPath(repo)] == TextFile(Html(urls))
  {
    LinkFileNotPage(repo);
  }

  /** A rendered badge links to the profile `ProfileUrl` names. */
  lemma RenderProfile(users: map<string, string>, avatars: map<string, string>, e: (string, int, Label), svc: Services)
    requires Render(users, avatars, e, svc).Ok?
    ensures Render(users, avatars, e, svc).value.profileUrl == ProfileUrl(users, e.0)
  {
    FaceSourceRules(users, avatars, e.0, svc);
  }

  /** After a successful `_issue_badges`, image i is the badge of entry i. */
  lemma IssuedImages(files: Storage, users: map<string, string>, repo: Repo, es: seq<(string, int, Label)>, svc: Services)
    requires Issued(files, users, repo, es, svc).0.Pass?
    ensures var f := Issued(files, users, repo, es, svc).1;
      forall i :: 0 <= i < |es| ==>
        && Render(users, repo.avatars, es[i], svc).Ok?
        && ImagePath(repo, i) in f
        && f[ImagePath(repo, i)] == SvgFile(Render(users, repo.avatars, es[i], svc).value.doc)
  {
    GalleryImages(files, repo, Renders(users, repo.avatars, es, svc));
    RendersAll(users, repo.avatars, es, svc);
  }

  /** The profile URL of each entry, in order. */
  function ProfileUrls(users: map<string, string>, es: seq<(string, int, Label)>): (r: seq<string>)
    ensures |r| == |es| && forall i :: 0 <= i < |es| ==> r[i] == ProfileUrl(users, es[i].0)
  {
    seq(|es|, i requires 0 <= i < |es| => ProfileUrl(users, es[i].0))
  }

  /** When every entry renders, the rendered profiles are the entries' profile URLs. */
  lemma RenderedProfiles(users: map<string, string>, avatars: map<string, string>, es: seq<(string, int, Label)>, svc: Services)
    requires UntilFailure(Renders(users, avatars, es, svc)).1.None?
    ensures Profiles(UntilFailure(Renders(users, avatars, es, svc)).0) == ProfileUrls(users, es)
  {
    var rs := Renders(users, avatars, es, svc);
    RendersAll(users, avatars, es, svc);
    var bs := UntilFailure(rs).0;
    forall i | 0 <= i < |es| ensures bs[i].profileUrl == ProfileUrl(users, es[i].0) {
      assert rs[i] == Ok(bs[i]);
      RenderProfile(users, avatars, es[i], svc);
    }
  }

  /** After a successful `_issue_badges`, links.txt and test.html are written
      from the entries' profiles, in order. */
  lemma IssuedTexts(files: Storage, users: map<string, string>, repo: Repo, es: seq<(string, int, Label)>, svc: Services)
    requires Issued(files, users, repo, es, svc).0.Pass?
    ensures var f := Issued(files, users, repo, es, svc).1;
      && LinkFilePath(repo) in f && f[LinkFilePath(repo)] == TextFile(Join(ProfileUrls(users, es), "\n"))
      && TestHtmlPath(repo) in f && f[TestHtmlPath(repo)] == TextFile(Html(ProfileUrls(users, es)))
  {
    var rs := Renders(users, repo.avatars, es, svc);
    GalleryTexts(files, repo, rs);
    RenderedProfiles(users, repo.avatars, es, svc);
  }

  /** When `_issue_badges` fails, it fails at the first entry whose badge cannot
      be made, and the images of the entries before it are all that was written. */
  lemma IssuedFailed(files: Storage, users: map<string, string>, repo: Repo, es: seq<(string, int, Label)>, svc: Services)
    requires Issued(files, users, repo, es, svc).0.Fail?
    ensures var made := UntilFailure(Renders(users, repo.avatars, es, svc)).0;
      && |made| < |es|
      && (forall i :: 0 <= i < |made| ==> Render(users, repo.avatars, es[i], svc) == Ok(made[i]))
      && Render(users, repo.avatars, es[|made|], svc) == Err(Issued(files, users, repo, es, svc).0.error)
      && Issued(files, users, repo, es, svc).1 == SaveImages(files, repo, made)
  {
    GalleryFailed(files, repo, Renders(users, repo.avatars, es, svc));
    RendersAll(users, repo.avatars, es, svc);
  }

  /** Line i of links.txt is profile i, when no profile holds a newline. */
  lemma LinkLines(urls: seq<string>)
    requires |urls| > 0 && forall i :: 0 <= i < |urls| ==> '\n' !in urls[i]
    ensures Split(Join(urls, "\n"), '\n') == urls
  {
    SplitJoin(urls, '\n');
  }

  // ---------------------------------------------------------------- users.csv

  /** A users.csv line unpacks into exactly two comma-separated fields. */
  predicate UserLine(line: string) {
    |Split(Strip(line), ',')| == 2
  }

  /** The loop of `__init__` from `acc` on: each line stripped and split at ',',
      its first field mapped to its second; a line without exactly two fields
      raises. */
  function ParseUserLines(lines: seq<string>, acc: map<string, string>): Result<map<string, string>, GloryError> {
    if lines == [] then Ok(acc)
    else if !UserLine(lines[0]) then Err(MalformedUsersLine(lines[0]))
    else
      var fields := Split(Strip(lines[0]), ',');
      ParseUserLines(lines[1..], acc[fields[0] := fields[1]])
  }

  /** Reading fails exactly when some line is malformed, and the error names
      the first malformed line. */
  lemma {:induction false} ParseUserLinesFails(lines: seq<string>, acc: map<string, string>)
    ensures var r := ParseUserLines(lines, acc);
      r.Err? <==> exists i :: 0 <= i < |lines| && !UserLine(lines[i])
    ensures var r := ParseUserLines(lines, acc);
      forall i :: 0 <= i < |lines| && !UserLine(lines[i]) && (forall j :: 0 <= j < i ==> UserLine(lines[j])) ==>
        r == Err(MalformedUsersLine(lines[i]))
  {
    if lines != [] && UserLine(lines[0]) {
      var fields := Split(Strip(lines[0]), ',');
      ParseUserLinesFails(lines[1..], acc[fields[0] := fields[1]]);
      assert forall i :: 0 < i < |lines| ==> lines[i] == lines[1..][i - 1];
      forall i | 0 <= i < |lines| && !UserLine(lines[i]) && (forall j :: 0 <= j < i ==> UserLine(lines[j]))
        ensures ParseUserLines(lines, acc) == Err(MalformedUsersLine(lines[i]))
      {
        assert i > 0;
        assert forall j :: 0 <= j < i - 1 ==> UserLine(lines[1..][j]);
      }
    }
  }

  /** `__init__`'s reading of users.csv: GitHub user name -> Sourcerer user name. */
  function ParseUsers(data: string): Result<map<string, string>, GloryError> {
    ParseUserLines(Split(Strip(data), '\n'), map[])
  }

  /** One turn of the `__init__` loop at line i. */
  lemma ParseUserLinesAt(lines: seq<string>, i: nat, acc: map<string, string>)
    requires i < |lines|
    ensures var fields := Split(Strip(lines[i]), ',');
      ParseUserLines(lines[i..], acc) ==
        if |fields| != 2 then Err(MalformedUsersLine(lines[i]))
        else ParseUserLines(lines[i + 1..], acc[fields[0] := fields[1]])
  {
    assert lines[i..][0] == lines[i];
    assert lines[i..][1..] == lines[i + 1..];
  }

  /** The loop of `__init__`. */
  method LoadUsers(data: string) returns (r: Result<map<string, string>, GloryError>)
    ensures r == ParseUsers(data)
  {
    var lines := Split(Strip(data), '\n');
    var users: map<string, string> := map[];
    var i := 0;
    while i < |lines|
      invariant 0 <= i <= |lines|
      invariant ParseUsers(data) == ParseUserLines(lines[i..], users)
    {
      ParseUserLinesAt(lines, i, users);
      var fields := Split(Strip(lines[i]), ',');
      if |fields| != 2 {
        return Err(MalformedUsersLine(lines[i]));
      }
      users := users[fields[0] := fields[1]];
      i := i + 1;
    }
    assert lines[i..] == [];
    return Ok(users);
  }

  /** A blank or empty users.csv raises: its one line is empty. */
  lemma BlankUsersFile(data: string)
    requires forall i :: 0 <= i < |data| ==> IsSpace(data[i])
    ensures ParseUsers(data) == Err(MalformedUsersLine(""))
  {
    assert TrimStart(data) == [];
    assert Strip(data) == "";
    assert Strip("") == "";
  }

  /** The pairs put in order into `acc`, a later pair for a name replacing an
      earlier one. */
  function Assoc(acc: map<string, string>, es: seq<(string, string)>): map<string, string>
    decreases es
  {
    if es == [] then acc else Assoc(acc[es[0].0 := es[0].1], es[1..])
  }

  /** The names of `Assoc` are those of `acc` and of the pairs. */
  lemma {:induction false} AssocKeys(acc: map<string, string>, es: seq<(string, string)>, k: string)
    decreases es
    ensures k in Assoc(acc, es) <==> k in acc || exists i :: 0 <= i < |es| && es[i].0 == k
  {
    if es != [] {
      AssocKeys(acc[es[0].0 := es[0].1], es[1..], k);
      if exists i :: 0 < i < |es| && es[i].0 == k {
        var i :| 0 < i < |es| && es[i].0 == k;
        assert es[1..][i - 1].0 == k;
      }
      if exists i :: 0 <= i < |es[1..]| && es[1..][i].0 == k {
        var i :| 0 <= i < |es[1..]| && es[1..][i].0 == k;
        assert es[i + 1].0 == k;
      }
    }
  }

  /** A name no pair mentions keeps its `acc` value. */
  lemma {:induction false} AssocKeeps(acc: map<string, string>, es: seq<(string, string)>, k: string)
    decreases es
    requires k in acc
    requires forall i :: 0 <= i < |es| ==> es[i].0 != k
    ensures k in Assoc(acc, es) && Assoc(acc, es)[k] == acc[k]
  {
    if es != [] {
      assert forall i :: 0 <= i < |es[1..]| ==> es[1..][i] == es[i + 1];
      AssocKeeps(acc[es[0].0 := es[0].1], es[1..], k);
    }
  }

  /** A name maps to the value of its last pair. */
  lemma {:induction false} AssocLast(acc: map<string, string>, es: seq<(string, string)>, i: nat)
    decreases es
    requires i < |es|
    requires forall j :: i < j < |es| ==> es[j].0 != es[i].0
    ensures es[i].0 in Assoc(acc, es) && Assoc(acc, es)[es[i].0] == es[i].1
  {
    var acc' := acc[es[0].0 := es[0].1];
    assert forall j :: 0 <= j < |es[1..]| ==> es[1..][j] == es[j + 1];
    if i == 0 {
      AssocKeeps(acc', es[1..], es[0].0);
    } else {
      AssocLast(acc', es[1..], i - 1);
    }
  }

  /** One users.csv line. */
  function UserCsvLine(e: (string, string)): string {
    e.0 + "," + e.1
  }

  /** A users.csv file holding the pairs, one per line. */
  function UsersCsv(es: seq<(string, string)>): string {
    Join(CsvLines(es), "\n")
  }

  /** A name with no comma and no whitespace. */
  predicate PlainName(s: string) {
    forall i :: 0 <= i < |s| ==> s[i] != ',' && !IsSpace(s[i])
  }

  lemma StripPlain(s: string)
    requires s == [] || (!IsSpace(s[0]) && !IsSpace(s[|s| - 1]))
    ensures Strip(s) == s
  {
  }

  lemma PlainLine(e: (string, string))
    requires PlainName(e.0) && PlainName(e.1)
    ensures forall i :: 0 <= i < |UserCsvLine(e)| ==> !IsSpace(UserCsvLine(e)[i])
    ensures Strip(UserCsvLine(e)) == UserCsvLine(e)
    ensures Split(UserCsvLine(e), ',') == [e.0, e.1]
  {
    var l := UserCsvLine(e);
    forall i | 0 <= i < |l| ensures !IsSpace(l[i]) {
      if i < |e.0| {
        assert l[i] == e.0[i];
      } else if i > |e.0| {
        assert l[i] == e.1[i - |e.0| - 1];
      }
    }
    StripPlain(l);
    var xs := [e.0, e.1];
    assert xs[1..] == [e.1];
    assert Join(xs, ",") == l;
    SplitJoin(xs, ',');
  }

  lemma {:induction false} ParseCsvLines(acc: map<string, string>, es: seq<(string, string)>)
    requires forall i :: 0 <= i < |es| ==> PlainName(es[i].0) && PlainName(es[i].1)
    decreases es
    ensures ParseUserLines(CsvLines(es), acc) == Ok(Assoc(acc, es))
  {
    var lines := CsvLines(es);
    if es != [] {
      PlainLine(es[0]);
      ParseCsvLines(acc[es[0].0 := es[0].1], es[1..]);
      assert lines[1..] == CsvLines(es[1..]);
    }
  }

  function CsvLines(es: seq<(string, string)>): (r: seq<string>)
    ensures |r| == |es| && forall i :: 0 <= i < |es| ==> r[i] == UserCsvLine(es[i])
  {
    seq(|es|, i requires 0 <= i < |es| => UserCsvLine(es[i]))
  }

  /** A users.csv of plain names has one line per pair. */
  lemma CsvSplit(es: seq<(string, string)>)
    requires |es| >= 1
    requires forall i :: 0 <= i < |es| ==> PlainName(es[i].0) && PlainName(es[i].1)
    ensures Split(UsersCsv(es), '\n') == CsvLines(es)
  {
    var lines := CsvLines(es);
    forall i | 0 <= i < |lines| ensures '\n' !in lines[i] {
      PlainLine(es[i]);
      assert IsSpace('\n');
    }
    SplitJoin(lines, '\n');
  }

  /** A users.csv of plain names has no surrounding whitespace. */
  lemma CsvStrip(es: seq<(string, string)>)
    requires |es| >= 1
    requires forall i :: 0 <= i < |es| ==> PlainName(es[i].0) && PlainName(es[i].1)
    ensures Strip(UsersCsv(es)) == UsersCsv(es)
  {
    var lines := CsvLines(es);
    var data := UsersCsv(es);
    PlainLine(es[0]);
    PlainLine(es[|es| - 1]);
    JoinEnds(lines, "\n");
    var first, last := lines[0], lines[|lines| - 1];
    assert data[0] == first[0];
    assert data[|data| - 1] == last[|last| - 1];
    StripPlain(data);
  }

  /** Reading back a users.csv written from the pairs gives the map in which each
      name holds its last pair's value. */
  lemma UsersRoundTrip(es: seq<(string, string)>)
    requires |es| >= 1
    requires forall i :: 0 <= i < |es| ==> PlainName(es[i].0) && PlainName(es[i].1)
    ensures ParseUsers(UsersCsv(es)) == Ok(Assoc(map[], es))
  {
    CsvSplit(es);
    CsvStrip(es);
    ParseCsvLines(map[], es);
  }

  // ---------------------------------------------------------------- the generator

  /** Results that are all successes, followed by a failure or by nothing, are
      what `UntilFailure` reports. */
  lemma {:induction false} UntilFailureOf<T, E>(rs: seq<Result<T, E>>, bs: seq<T>)
    requires |bs| <= |rs| && forall k :: 0 <= k < |bs| ==> rs[k] == Ok(bs[k])
    ensures |bs| == |rs| ==> UntilFailure(rs) == (bs, None)
    ensures |bs| < |rs| && rs[|bs|].Err? ==> UntilFailure(rs) == (bs, Some(rs[|bs|].error))
  {
    if |bs| > 0 {
      assert forall k :: 0 <= k < |bs[1..]| ==> rs[1..][k] == Ok(bs[1..][k]) by {
        forall k | 0 <= k < |bs[1..]| ensures rs[1..][k] == Ok(bs[1..][k]) {
          assert rs[1..][k] == rs[k + 1] && bs[1..][k] == bs[k + 1];
        }
      }
      UntilFailureOf(rs[1..], bs[1..]);
      assert bs == [bs[0]] + bs[1..];
      if |bs| < |rs| {
        assert rs[1..][|bs[1..]|] == rs[|bs|];
      }
    }
  }

  lemma ProfilesSnoc(bs: seq<Rendered>, b: Rendered)
    ensures Profiles(bs + [b]) == Profiles(bs) + [b.profileUrl]
  {
  }

  /** One more success after a run of successes. */
  lemma OkPrefixSnoc<T, E>(rs: seq<Result<T, E>>, bs: seq<T>, b: T)
    requires |bs| < |rs| && rs[|bs|] == Ok(b) && forall k :: 0 <= k < |bs| ==> rs[k] == Ok(bs[k])
    ensures forall k :: 0 <= k < |bs| + 1 ==> rs[k] == Ok((bs + [b])[k])
  {
  }

  /** `Gallery` when the badges before `|bs|` were made and badge `|bs|` failed. */
  lemma GalleryStops(files: Storage, repo: Repo, rs: seq<Result<Rendered, GloryError>>, bs: seq<Rendered>)
    requires |bs| < |rs| && rs[|bs|].Err? && forall k :: 0 <= k < |bs| ==> rs[k] == Ok(bs[k])
    ensures Gallery(files, repo, rs) == (Fail(rs[|bs|].error), SaveImages(files, repo, bs))
  {
    UntilFailureOf(rs, bs);
  }

  /** `Gallery` when every badge was made. */
  lemma GalleryCompletes(files: Storage, repo: Repo, rs: seq<Result<Rendered, GloryError>>, bs: seq<Rendered>)
    requires |bs| == |rs| && forall k :: 0 <= k < |bs| ==> rs[k] == Ok(bs[k])
    ensures Gallery(files, repo, rs) ==
      (Pass, SaveImages(files, repo, bs)[LinkFilePath(repo) := TextFile(Join(Profiles(bs), "\n"))][TestHtmlPath(repo) := TextFile(Html(Profiles(bs)))])
  {
    UntilFailureOf(rs, bs);
  }

  /** Saving one more badge adds its image after the others. */
  lemma SaveImagesSnoc(files: Storage, repo: Repo, bs: seq<Rendered>, b: Rendered)
    ensures SaveImages(files, repo, bs + [b]) == SaveImages(files, repo, bs)[ImagePath(repo, |bs|) := SvgFile(b.doc)]
  {
    var ks, vs := ImagePaths(repo, |bs| + 1), SvgFiles(bs + [b]);
    assert ks[..|bs|] == ImagePaths(repo, |bs|);
    assert vs[..|bs|] == SvgFiles(bs);
  }

  /** One more anchor line at the end of test.html. */
  lemma HtmlSnoc(urls: seq<string>, j: nat)
    requires j < |urls|
    ensures Terminated(AnchorLines(urls[..j + 1], 0)) == Terminated(AnchorLines(urls[..j], 0)) + AnchorLine(urls[j], j) + "\n"
  {
    assert AnchorLines(urls[..j + 1], 0) == AnchorLines(urls[..j], 0) + [AnchorLine(urls[j], j)];
    TerminatedSnoc(AnchorLines(urls[..j], 0), AnchorLine(urls[j], j));
  }

  /** What `make` leaves in storage, and whether it raised. */
  function Made(files: Storage, users: map<string, string>, repo: Repo, svc: Services): (Outcome<GloryError>, Storage) {
    var c := Chosen(repo);
    Issued(Cleaned(files, repo), users, repo, Everyone(c.0, c.1, c.2), svc)
  }

  /** At most eight faces: up to five trending and three new, or up to five top
      contributors in a quiet week. */
  lemma ChosenSize(repo: Repo)
    ensures var c := Chosen(repo);
      && |c.0| <= 5 && |c.1| <= 3 && |c.2| <= 5
      && |Everyone(c.0, c.1, c.2)| <= 8
  {
    var cs := SortByCount(Tally(repo.recentCommits));
    var ns := set u | u in repo.newContributors;
    AssignedRules(cs, ns);
    var c := Chosen(repo);
    assert (c.0, c.1) == Assigned(cs, ns);
    assert |c.2| <= 5;
  }

  /** The generator: the GitHub-to-Sourcerer user mapping, the storage it
      writes to, and the repo of the current `make`. */
  class Generator {
    var users: map<string, string>
    var files: Storage
    var repo: Repo

    /** `__init__`, given the users.csv mapping `LoadUsers` read. */
    constructor (users: map<string, string>, files: Storage)
      ensures this.users == users && this.files == files && repo == NewRepo("", "", "")
    {
      this.users := users;
      this.files := files;
      repo := NewRepo("", "", "");
    }

    /** `_cleanup`: the image directory's subtree removed (and the directory
        made again, which a flat map of files does not record), then links.txt. */
    method Cleanup()
      modifies this`files
      ensures files == Cleaned(old(files), repo)
    {
      var dir := ImageDir(repo);
      files := map p | p in files && !Under(p, dir) :: files[p];
      var link := LinkFilePath(repo);
      files := map p | p in files && p != link :: files[p];
    }

    /** `_issue_badges`: one badged avatar per entry, saved as images/<i>.svg,
        then links.txt and test.html. The first failure stops the loop. */
    method IssueBadges(everyone: seq<(string, int, Label)>, svc: Services) returns (o: Outcome<GloryError>)
      modifies this`files
      ensures (o, files) == Issued(old(files), users, repo, everyone, svc)
    {
      ghost var rs := Renders(users, repo.avatars, everyone, svc);
      ghost var made: seq<Rendered> := [];
      var profileUrls: seq<string> := [];
      var i := 0;
      while i < |everyone|
        invariant 0 <= i <= |everyone| && |made| == i
        invariant forall k :: 0 <= k < i ==> rs[k] == Ok(made[k])
        invariant profileUrls == Profiles(made)
        invariant files == SaveImages(old(files), repo, made)
      {
        var r := IssueBadge(everyone, i, svc);
        if r.Err? {
          o := Fail(r.error);
          GalleryStops(old(files), repo, rs, made);
          return;
        }
        OkPrefixSnoc(rs, made, r.value);
        ProfilesSnoc(made, r.value);
        SaveImagesSnoc(old(files), repo, made, r.value);
        files := files[ImagePath(repo, i) := SvgFile(r.value.doc)];
        made := made + [r.value];
        profileUrls := profileUrls + [r.value.profileUrl];
        i := i + 1;
      }
      GalleryCompletes(old(files), repo, rs, made);
      files := files[LinkFilePath(repo) := TextFile(Join(profileUrls, "\n"))];
      var html := TestPage(profileUrls);
      files := files[TestHtmlPath(repo) := TextFile(html)];
      o := Pass;
    }

    /** One turn of the `_issue_badges` loop: the adorner for the entry's face
        and its badge, or the error that stops the loop. */
    method IssueBadge(everyone: seq<(string, int, Label)>, i: nat, svc: Services) returns (r: Result<Rendered, GloryError>)
      requires i < |everyone|
      ensures r == Renders(users, repo.avatars, everyone, svc)[i]
    {
      RendersAll(users, repo.avatars, everyone, svc);
      var (username, numCommits, badge) := everyone[i];
      ghost var src := FaceSource(users, repo.avatars, username, svc);
      var adorner := new AvatarAdorner();
      var m := MapToSourcerer(users, username);
      var url: string;
      if m.1.Some? {
        adorner.InitWithSourcerer(m.1.value, svc);
        url := "https://sourcerer.io/" + m.0.value;
      } else if username in repo.avatars {
        adorner.InitWithFace(repo.avatars[username]);
        url := "https://github.com/" + username;
      } else {
        return Err(MissingAvatar(username));
      }
      assert src == Ok((adorner.svg, adorner.faceImage, url));
      var a := adorner.Adorn(LabelName(badge), numCommits, svc);
      if a.Fail? {
        return Err(AdornFailed(a.error));
      }
      return Ok(Rendered(adorner.svg, url));
    }

    /** The test HTML `_issue_badges` writes, built line by line. */
    static method TestPage(profileUrls: seq<string>) returns (html: string)
      ensures html == Html(profileUrls)
    {
      html := "";
      var j := 0;
      while j < |profileUrls|
        invariant 0 <= j <= |profileUrls|
        invariant html == Terminated(AnchorLines(profileUrls[..j], 0))
      {
        HtmlSnoc(profileUrls, j);
        html := html + AnchorLine(profileUrls[j], j) + "\n";
        j := j + 1;
      }
      assert profileUrls[..j] == profileUrls;
    }

    /** `make`: clean up, choose the faces, issue their badges. */
    method Make(repo: Repo, svc: Services) returns (o: Outcome<GloryError>)
      modifies this
      ensures this.repo == repo && users == old(users)
      ensures (o, files) == Made(old(files), users, repo, svc)
    {
      this.repo := repo;
      Cleanup();
      var contributors := CountCommits(repo.recentCommits);
      var trending, newFaces := AssignTrendingAndNew(contributors, repo.newContributors);
      var topGuns: seq<(string, int)> := [];
      if trending == [] && newFaces == [] {
        topGuns := AssignTop(repo.topContributors);
      }
      o := IssueBadges(Everyone(trending, newFaces, topGuns), svc);
    }
  }
}
