/** What the statistics charts promise: which records they count, in what
    order the buckets come, that every record is counted once, how each
    point is computed, and that the order std::sort leaves equal dates in
    makes no difference. */
module AggregationFacts {
  import opened Dates
  import opened Records
  import opened Aggregation

  // ---------------------------------------------------------------------
  // Which records are counted

  /** A record is charted exactly when its type is the sport and its date lies in the window. */
  lemma {:induction false} RecordSelection(ws: seq<Workout>, sport: string, win: Window, w: Workout)
    ensures w in SortByDate(PeriodRecords(ws, sport, win)) <==> w in ws && w.kind == sport && win.Contains(w.date)
  {
    var r := PeriodRecords(ws, sport, win);
    assert w in SortByDate(r) <==> w in multiset(SortByDate(r));
    assert w in r <==> w in multiset(r);
  }

  /** The categories of the charts are the bucket keys. */
  lemma {:induction false} CategoriesAreKeys(s: seq<Workout>, p: Period)
    ensures SeriesOf(p, Buckets(s, p)).categories == Keys(s, p)
  {
  }

  /** A bucket exists for key k exactly when some charted record has key k. */
  lemma {:induction false} CategoryIffRecord(ws: seq<Workout>, sport: string, p: Period, win: Window, k: int)
    ensures k in Aggregate(ws, sport, p, win).categories
        <==> exists w :: w in ws && w.kind == sport && win.Contains(w.date) && BucketKey(p, w.date) == k
  {
    var s := SortByDate(PeriodRecords(ws, sport, win));
    CategoriesAreKeys(s, p);
    KeysByMembers(s, KeyOf(p));
    forall w ensures w in s <==> w in ws && w.kind == sport && win.Contains(w.date) {
      RecordSelection(ws, sport, win, w);
    }
  }

  /** No record of the sport in the window: no buckets and empty series. */
  lemma {:induction false} NoRecordsNoBuckets(ws: seq<Workout>, sport: string, p: Period, win: Window)
    requires forall w :: w in ws && w.kind == sport ==> !win.Contains(w.date)
    ensures Aggregate(ws, sport, p, win) == Series([], [], [], [])
  {
    var s := SortByDate(PeriodRecords(ws, sport, win));
    forall w: Workout
      ensures w !in s
    {
      RecordSelection(ws, sport, win, w);
    }
    HeadIsMember(s);
    assert s == [];
  }

  // ---------------------------------------------------------------------
  // Appending and permuting records

  lemma {:induction false} ValuesByAppend(a: seq<Workout>, b: seq<Workout>, key: Workout -> int, k: int, val: Workout -> int)
    ensures ValuesBy(a + b, key, k, val) == ValuesBy(a, key, k, val) + ValuesBy(b, key, k, val)
    decreases |b|
  {
    if b == [] {
      assert a + b == a;
    } else {
      var b' := b[..|b| - 1];
      ValuesByAppend(a, b', key, k, val);
      assert (a + b)[..|a + b| - 1] == a + b';
    }
  }

  lemma {:induction false} SumAppend(a: seq<int>, b: seq<int>)
    ensures Sum(a + b) == Sum(a) + Sum(b)
    decreases |b|
  {
    if b == [] {
      assert a + b == a;
    } else {
      var b' := b[..|b| - 1];
      SumAppend(a, b');
      assert (a + b)[..|a + b| - 1] == a + b';
    }
  }

  /** Taking out the element at j leaves the others, in order. */
  lemma {:induction false} Split<T>(b: seq<T>, j: int)
    requires 0 <= j < |b|
    ensures b == b[..j] + ([b[j]] + b[j + 1..])
    ensures multiset(b[..j] + b[j + 1..]) == multiset(b) - multiset{b[j]}
  {
    assert b == b[..j] + ([b[j]] + b[j + 1..]);
  }

  /** Taking one record out takes its value, if any, out of the bucket's values. */
  lemma {:induction false} ValuesByRemove(s: seq<Workout>, j: int, key: Workout -> int, k: int, val: Workout -> int)
    requires 0 <= j < |s|
    ensures multiset(ValuesBy(s, key, k, val))
         == multiset(ValuesBy(s[..j] + s[j + 1..], key, k, val)) + multiset(ValuesBy([s[j]], key, k, val))
  {
    var a, c := s[..j], s[j + 1..];
    assert s == a + ([s[j]] + c);
    ValuesByAppend(a, [s[j]] + c, key, k, val);
    ValuesByAppend([s[j]], c, key, k, val);
    ValuesByAppend(a, c, key, k, val);
  }

  /** Reordering the records reorders each bucket's values and nothing more. */
  lemma {:induction false} ValuesByPermutation(s1: seq<Workout>, s2: seq<Workout>, key: Workout -> int, k: int, val: Workout -> int)
    requires multiset(s1) == multiset(s2)
    ensures multiset(ValuesBy(s1, key, k, val)) == multiset(ValuesBy(s2, key, k, val))
    decreases |s1|
  {
    if s1 == [] {
      assert |s2| == |multiset(s2)| == 0;
    } else {
      var n := |s1| - 1;
      assert s1[n] in multiset(s2);
      var j :| 0 <= j < |s2| && s2[j] == s1[n];
      Split(s2, j);
      Split(s1, n);
      assert s1[..n] + s1[n + 1..] == s1[..n];
      ValuesByPermutation(s1[..n], s2[..j] + s2[j + 1..], key, k, val);
      ValuesByRemove(s1, n, key, k, val);
      ValuesByRemove(s2, j, key, k, val);
    }
  }

  /** A sum does not depend on the order of its terms. */
  lemma {:induction false} SumPermutation(a: seq<int>, b: seq<int>)
    requires multiset(a) == multiset(b)
    ensures Sum(a) == Sum(b)
    decreases |a|
  {
    if a == [] {
      assert |b| == |multiset(b)| == 0;
    } else {
      var x := a[|a| - 1];
      var init := a[..|a| - 1];
      assert a == init + [x];
      assert x in multiset(b);
      var j :| 0 <= j < |b| && b[j] == x;
      Split(b, j);
      var u, v := b[..j], b[j + 1..];
      assert multiset(init) == multiset(a) - multiset{x};
      SumPermutation(init, u + v);
      assert Sum(a) == Sum(init) + x;
      assert Sum([x]) == x by {
        assert [x][..0] == [];
      }
      SumAppend(u, [x] + v);
      SumAppend([x], v);
      SumAppend(u, v);
      assert Sum(b) == Sum(u) + x + Sum(v);
    }
  }

  /** A bucket is determined by which records there are, not by their order. */
  lemma {:induction false} BucketOfPermutation(s1: seq<Workout>, s2: seq<Workout>, p: Period, k: int)
    requires multiset(s1) == multiset(s2)
    ensures BucketOf(s1, p, k) == BucketOf(s2, p, k)
  {
    var d1, d2 := KeyValues(s1, p, k, Duration), KeyValues(s2, p, k, Duration);
    var c1, c2 := KeyValues(s1, p, k, Calories), KeyValues(s2, p, k, Calories);
    ValuesByPermutation(s1, s2, KeyOf(p), k, ValueOf(Duration));
    ValuesByPermutation(s1, s2, KeyOf(p), k, ValueOf(Calories));
    assert |d1| == |multiset(d1)| == |multiset(d2)| == |d2|;
    SumPermutation(d1, d2);
    SumPermutation(c1, c2);
  }

  // ---------------------------------------------------------------------
  // Bucket order

  /** On a date-sorted list whose keys follow the dates, the keys come out strictly increasing. */
  lemma {:induction false} KeysIncreasing(s: seq<Workout>, key: Workout -> int)
    requires SortedByDate(s) && KeyFollowsDate(s, key)
    ensures Increasing(KeysBy(s, key))
    decreases |s|
  {
    if s != [] {
      var init, x := s[..|s| - 1], s[|s| - 1];
      assert forall w :: w in init ==> w in s;
      KeysIncreasing(init, key);
      KeysByMembers(init, key);
      var ks, k := KeysBy(init, key), key(x);
      if k !in ks {
        forall e | e in ks
          ensures e < k
        {
          var w :| w in init && key(w) == e;
          var t :| 0 <= t < |init| && init[t] == w;
          assert s[t] == w;
        }
        assert KeysBy(s, key) == ks + [k];
        forall i, j | 0 <= i < j < |ks| + 1
          ensures (ks + [k])[i] < (ks + [k])[j]
        {
          if j == |ks| {
            assert ks[i] in ks;
          }
        }
      }
    }
  }

  /** Dropping the last element of a strictly increasing list drops exactly its largest element. */
  lemma {:induction false} IncreasingInit(a: seq<int>, x: int)
    requires Increasing(a) && a != []
    ensures x in a[..|a| - 1] <==> x in a && x < a[|a| - 1]
    ensures x in a ==> x <= a[|a| - 1]
  {
    if x in a {
      var t :| 0 <= t < |a| && a[t] == x;
      if t < |a| - 1 {
        assert a[..|a| - 1][t] == x;
      }
    }
  }

  lemma HeadIsMember<T>(b: seq<T>)
    ensures |b| > 0 ==> b[0] in b
  {
  }

  /** Two strictly increasing lists with the same elements are the same list. */
  lemma {:induction false} IncreasingUnique(a: seq<int>, b: seq<int>)
    requires Increasing(a) && Increasing(b)
    requires forall x :: x in a <==> x in b
    ensures a == b
    decreases |a|
  {
    if a == [] {
      HeadIsMember(b);
    } else {
      assert a[0] in a;
      var la, lb := a[|a| - 1], b[|b| - 1];
      IncreasingInit(a, lb);
      IncreasingInit(b, la);
      var a', b' := a[..|a| - 1], b[..|b| - 1];
      forall x
        ensures x in a' <==> x in b'
      {
        IncreasingInit(a, x);
        IncreasingInit(b, x);
      }
      assert Increasing(a') && Increasing(b');
      IncreasingUnique(a', b');
      assert a == a' + [la] && b == b' + [lb];
    }
  }

  /** The records charted for a period window have keys that follow their dates. */
  lemma {:induction false} ChartedKeysFollowDates(ws: seq<Workout>, sport: string, p: Period, today: Date, shift: int)
    ensures KeyFollowsDate(SortByDate(PeriodRecords(ws, sport, PeriodWindow(p, today, shift))), KeyOf(p))
  {
    var win := PeriodWindow(p, today, shift);
    var s := SortByDate(PeriodRecords(ws, sport, win));
    forall v, w | v in s && w in s && v.date <= w.date
      ensures KeyOf(p)(v) <= KeyOf(p)(w)
    {
      RecordSelection(ws, sport, win, v);
      RecordSelection(ws, sport, win, w);
      BucketKeyMonotone(p, today, shift, v.date, w.date);
    }
  }

  /** Inside a period window the chart categories are strictly increasing: pairwise distinct and chronological. */
  lemma {:induction false} CategoriesChronological(ws: seq<Workout>, sport: string, p: Period, today: Date, shift: int)
    ensures Increasing(Aggregate(ws, sport, p, PeriodWindow(p, today, shift)).categories)
  {
    var s := SortByDate(PeriodRecords(ws, sport, PeriodWindow(p, today, shift)));
    ChartedKeysFollowDates(ws, sport, p, today, shift);
    KeysIncreasing(s, KeyOf(p));
    CategoriesAreKeys(s, p);
  }

  /** Any date-sorted arrangement of the same records, whatever it does with equal dates, gives the same buckets. */
  lemma {:induction false} SortChoiceIrrelevant(s1: seq<Workout>, s2: seq<Workout>, p: Period)
    requires multiset(s1) == multiset(s2)
    requires SortedByDate(s1) && SortedByDate(s2) && KeyFollowsDate(s1, KeyOf(p))
    ensures Buckets(s1, p) == Buckets(s2, p)
  {
    forall w
      ensures w in s1 <==> w in s2
    {
      assert w in s1 <==> w in multiset(s1);
      assert w in s2 <==> w in multiset(s2);
    }
    KeysIncreasing(s1, KeyOf(p));
    KeysIncreasing(s2, KeyOf(p));
    KeysByMembers(s1, KeyOf(p));
    KeysByMembers(s2, KeyOf(p));
    IncreasingUnique(Keys(s1, p), Keys(s2, p));
    forall k
      ensures BucketOf(s1, p, k) == BucketOf(s2, p, k)
    {
      BucketOfPermutation(s1, s2, p, k);
    }
  }

  /** So the charts are the same for every date-sorted order of the period's records. */
  lemma {:induction false} AnySortSameCharts(ws: seq<Workout>, sport: string, p: Period, today: Date, shift: int, s: seq<Workout>)
    requires SortedByDate(s)
    requires multiset(s) == multiset(PeriodRecords(ws, sport, PeriodWindow(p, today, shift)))
    ensures SeriesOf(p, Buckets(s, p)) == Aggregate(ws, sport, p, PeriodWindow(p, today, shift))
  {
    ChartedKeysFollowDates(ws, sport, p, today, shift);
    SortChoiceIrrelevant(SortByDate(PeriodRecords(ws, sport, PeriodWindow(p, today, shift))), s, p);
  }

  // ---------------------------------------------------------------------
  // Every record is counted once

  lemma {:induction false} CountsOfNothing(p: Period, ks: seq<int>)
    ensures TotalCount(BucketsFor([], p, ks)) == 0
    decreases |ks|
  {
    if ks != [] {
      var ks' := ks[..|ks| - 1];
      CountsOfNothing(p, ks');
      assert BucketsFor([], p, ks)[..|ks| - 1] == BucketsFor([], p, ks');
    }
  }

  /** One more record adds one to the count of the bucket its key names, if ks lists that key once. */
  lemma {:induction false} CountsStep(s: seq<Workout>, x: Workout, p: Period, ks: seq<int>)
    requires forall i, j :: 0 <= i < j < |ks| ==> ks[i] != ks[j]
    ensures TotalCount(BucketsFor(s + [x], p, ks))
         == TotalCount(BucketsFor(s, p, ks)) + (if KeyOf(p)(x) in ks then 1 else 0)
    decreases |ks|
  {
    assert (s + [x])[..|s|] == s;
    if ks != [] {
      var ks' := ks[..|ks| - 1];
      CountsStep(s, x, p, ks');
      assert BucketsFor(s + [x], p, ks)[..|ks| - 1] == BucketsFor(s + [x], p, ks');
      assert BucketsFor(s, p, ks)[..|ks| - 1] == BucketsFor(s, p, ks');
      assert forall k :: k in ks <==> k in ks' || k == ks[|ks| - 1];
    }
  }

  lemma {:induction false} CountsCoverRecords(s: seq<Workout>, p: Period, ks: seq<int>)
    requires forall i, j :: 0 <= i < j < |ks| ==> ks[i] != ks[j]
    requires forall w :: w in s ==> KeyOf(p)(w) in ks
    ensures TotalCount(BucketsFor(s, p, ks)) == |s|
    decreases |s|
  {
    if s == [] {
      CountsOfNothing(p, ks);
    } else {
      var s' := s[..|s| - 1];
      assert s == s' + [s[|s| - 1]];
      CountsCoverRecords(s', p, ks);
      CountsStep(s', s[|s| - 1], p, ks);
    }
  }

  /** The bucket counts add up to the number of records in the period. */
  lemma {:induction false} CountsAddUp(ws: seq<Workout>, sport: string, p: Period, win: Window)
    ensures TotalCount(Buckets(SortByDate(PeriodRecords(ws, sport, win)), p)) == |PeriodRecords(ws, sport, win)|
  {
    var r := PeriodRecords(ws, sport, win);
    var s := SortByDate(r);
    KeysByMembers(s, KeyOf(p));
    CountsCoverRecords(s, p, Keys(s, p));
    assert |s| == |multiset(s)| == |multiset(r)| == |r|;
  }

  // ---------------------------------------------------------------------
  // The points

  /** Week mode: each point is the bucket's total, exactly. Month and year
      mode: the bucket's mean, to the nearest tenth. Intensity: calories per
      minute to the nearest tenth, or 0 without minutes. */
  lemma {:induction false} SeriesPoint(p: Period, bs: seq<Bucket>, i: int)
    requires 0 <= i < |bs| && bs[i].count >= 1
    ensures var b, r := bs[i], SeriesOf(p, bs);
      && r.categories[i] == b.key
      && (p == Week ==> r.durations[i] == 10 * b.totalDuration && r.calories[i] == 10 * b.totalCalories)
      && (p != Week ==>
            && b.count * (2 * r.durations[i] - 1) <= 20 * b.totalDuration < b.count * (2 * r.durations[i] + 1)
            && b.count * (2 * r.calories[i] - 1) <= 20 * b.totalCalories < b.count * (2 * r.calories[i] + 1))
      && (b.totalDuration > 0 ==>
            b.totalDuration * (2 * r.intensities[i] - 1) <= 20 * b.totalCalories < b.totalDuration * (2 * r.intensities[i] + 1))
      && (b.totalDuration <= 0 ==> r.intensities[i] == 0)
  {
    var b, r := bs[i], SeriesOf(p, bs);
    assert r.durations[i] == Shown(p, b.totalDuration, b.count);
    assert r.calories[i] == Shown(p, b.totalCalories, b.count);
    assert r.intensities[i] == Intensity(b);
    if p == Week {
      RoundWhole(b.totalDuration);
      RoundWhole(b.totalCalories);
    }
  }

  /** The same rules for the charts of a sport: every bucket has at least one record. */
  lemma {:induction false} PointRules(ws: seq<Workout>, sport: string, p: Period, win: Window, i: int)
    requires 0 <= i < |Aggregate(ws, sport, p, win).categories|
    ensures Buckets(SortByDate(PeriodRecords(ws, sport, win)), p)[i].count >= 1
  {
    BucketsNonEmpty(SortByDate(PeriodRecords(ws, sport, win)), p, i);
  }
}
