/** The keeper's circular scan of the book, and why no position waits for a favoured prefix. */
module Scan {
  import opened Numbers
  import opened Nonlinear

  /** String order, by code unit. */
  predicate Before(a: string, b: string) {
    b != [] && (a == [] || a[0] < b[0] || (a[0] == b[0] && Before(a[1..], b[1..])))
  }

  lemma {:induction false} BeforeIsStrict(a: string, b: string)
    ensures a == b ==> !Before(a, b)
    ensures Before(a, b) ==> !Before(b, a)
    ensures a != b ==> Before(a, b) || Before(b, a)
  {
    if a != [] && b != [] && a[0] == b[0] {
      BeforeIsStrict(a[1..], b[1..]);
      assert a == [a[0]] + a[1..] && b == [b[0]] + b[1..];
    }
  }

  /** The first place two strings differ decides, and a proper prefix comes first. */
  lemma {:induction false} BeforeIsLexicographic(a: string, b: string)
    ensures Before(a, b) <==> a < b || exists i :: 0 <= i < |a| && i < |b| && a[..i] == b[..i] && a[i] < b[i]
  {
    if a != [] && b != [] {
      var (s, t) := (a[1..], b[1..]);
      assert a == [a[0]] + s && b == [b[0]] + t;
      if a[0] == b[0] {
        BeforeIsLexicographic(s, t);
        if i :| 0 <= i < |s| && i < |t| && s[..i] == t[..i] && s[i] < t[i] {
          assert a[..i + 1] == [a[0]] + s[..i] && b[..i + 1] == [b[0]] + t[..i];
          assert a[i + 1] < b[i + 1];
        }
        if i :| 0 <= i < |a| && i < |b| && a[..i] == b[..i] && a[i] < b[i] {
          assert i > 0;
          assert s[..i - 1] == a[..i][1..] && t[..i - 1] == b[..i][1..];
          assert s[i - 1] < t[i - 1];
        }
      } else {
        assert a[..0] == b[..0];
        if i :| 0 <= i < |a| && i < |b| && a[..i] == b[..i] && a[i] < b[i] {
          assert i > 0 ==> a[..i][0] == b[..i][0];
        }
      }
    }
  }

  lemma {:induction false} BeforeChains(a: string, b: string, c: string)
    requires Before(a, b) && Before(b, c)
    ensures Before(a, c)
  {
    if a != [] && a[0] == b[0] == c[0] {
      BeforeChains(a[1..], b[1..], c[1..]);
    }
  }

  // ---- One batch ----

  /** Place a row after every row that does not follow it, as a stable sort does. */
  function Insert<T>(sorted: seq<T>, row: T, key: T -> string): seq<T> {
    if sorted == [] then [row]
    else
      var last := sorted[|sorted| - 1];
      if Before(key(row), key(last)) then Insert(sorted[..|sorted| - 1], row, key) + [last] else sorted + [row]
  }

  function SortBy<T>(rows: seq<T>, key: T -> string): seq<T> {
    if rows == [] then [] else Insert(SortBy(rows[..|rows| - 1], key), rows[|rows| - 1], key)
  }

  /** The index of the first row past the cursor, or the number of rows. */
  function FirstAfter<T>(sorted: seq<T>, cursor: string, key: T -> string): nat {
    if sorted == [] then 0
    else if Before(cursor, key(sorted[0])) then 0
    else 1 + FirstAfter(sorted[1..], cursor, key)
  }

  function StartOf<T>(sorted: seq<T>, cursor: Option<string>, key: T -> string): nat {
    if cursor.None? then 0
    else
      var after := FirstAfter(sorted, cursor.value, key);
      if after >= |sorted| then 0 else after
  }

  function Rotate<T>(s: seq<T>, start: nat): seq<T> {
    if start <= |s| then s[start..] + s[..start] else s
  }

  function Take<T>(s: seq<T>, limit: nat): seq<T> {
    if limit < |s| then s[..limit] else s
  }

  /** At most `limit` rows, in key order from just past the cursor, wrapping around. */
  function ScanBatch<T>(rows: seq<T>, key: T -> string, cursor: Option<string>, limit: nat): seq<T> {
    var sorted := SortBy(rows, key);
    Take(Rotate(sorted, StartOf(sorted, cursor, key)), limit)
  }

  // ---- Sorting ----

  ghost predicate Ordered<T>(s: seq<T>, key: T -> string) {
    forall i, j :: 0 <= i < j < |s| ==> Before(key(s[i]), key(s[j]))
  }

  predicate DistinctKeys<T>(s: seq<T>, key: T -> string) {
    forall i, j :: 0 <= i < j < |s| ==> key(s[i]) != key(s[j])
  }

  lemma {:induction false} InsertKeeps<T>(sorted: seq<T>, row: T, key: T -> string)
    requires Ordered(sorted, key) && (forall i :: 0 <= i < |sorted| ==> key(sorted[i]) != key(row))
    ensures Ordered(Insert(sorted, row, key), key)
    ensures multiset(Insert(sorted, row, key)) == multiset(sorted) + multiset{row}
    ensures |Insert(sorted, row, key)| == |sorted| + 1
  {
    hide Before;
    if sorted != [] {
      var (init, last) := (sorted[..|sorted| - 1], sorted[|sorted| - 1]);
      assert sorted == init + [last];
      if Before(key(row), key(last)) {
        InsertKeeps(init, row, key);
        var placed := Insert(init, row, key);
        forall i | 0 <= i < |placed| ensures Before(key(placed[i]), key(last)) {
          assert placed[i] in multiset(placed);
          assert placed[i] == row || placed[i] in init;
        }
      } else {
        BeforeIsStrict(key(row), key(last));
        forall i | 0 <= i < |sorted| ensures Before(key(sorted[i]), key(row)) {
          if i < |init| {
            BeforeChains(key(sorted[i]), key(last), key(row));
          }
        }
      }
    }
  }

  /** A stable sort of rows with distinct keys is the rows themselves, in strictly ascending key order. */
  lemma {:induction false} SortByIsSorted<T>(rows: seq<T>, key: T -> string)
    requires DistinctKeys(rows, key)
    ensures Ordered(SortBy(rows, key), key)
    ensures multiset(SortBy(rows, key)) == multiset(rows)
  {
    if rows != [] {
      var (init, last) := (rows[..|rows| - 1], rows[|rows| - 1]);
      assert rows == init + [last];
      SortByIsSorted(init, key);
      var sorted := SortBy(init, key);
      forall i | 0 <= i < |sorted| ensures key(sorted[i]) != key(last) {
        assert sorted[i] in multiset(sorted);
        assert sorted[i] in init;
      }
      InsertKeeps(sorted, last, key);
    }
  }

  /** Rows in strictly ascending order are determined by which rows they are. */
  lemma {:induction false} OrderedIsUnique<T>(s: seq<T>, t: seq<T>, key: T -> string)
    requires Ordered(s, key) && Ordered(t, key) && multiset(s) == multiset(t)
    ensures s == t
    decreases |s|
  {
    hide Before;
    SameSize(s, t);
    if s == [] {
    } else {
      assert s[0] in multiset(s) && s[0] in t;
      assert t[0] in multiset(t) && t[0] in s;
      FirstIsLeast(s, t, key);
      TailMultiset(s);
      TailMultiset(t);
      OrderedIsUnique(s[1..], t[1..], key);
      assert s == [s[0]] + s[1..] && t == [t[0]] + t[1..];
    }
  }

  lemma TailMultiset<T>(s: seq<T>)
    requires s != []
    ensures multiset(s[1..]) == multiset(s) - multiset{s[0]}
  {
    assert s == [s[0]] + s[1..];
  }

  lemma FirstIsLeast<T>(s: seq<T>, t: seq<T>, key: T -> string)
    requires Ordered(s, key) && Ordered(t, key) && s != [] && t != [] && s[0] in t && t[0] in s
    ensures s[0] == t[0]
  {
    var i :| 0 <= i < |t| && t[i] == s[0];
    var j :| 0 <= j < |s| && s[j] == t[0];
    if i > 0 && j > 0 {
      BeforeIsStrict(key(s[0]), key(t[0]));
      assert false;
    }
  }

  // ---- Where a batch starts, and what is in it ----

  lemma {:induction false} FirstAfterRow<T>(sorted: seq<T>, key: T -> string, i: nat)
    requires Ordered(sorted, key) && i < |sorted|
    ensures FirstAfter(sorted, key(sorted[i]), key) == i + 1
  {
    BeforeIsStrict(key(sorted[i]), key(sorted[0]));
    if i == 0 {
      if |sorted| > 1 {
        assert Before(key(sorted[0]), key(sorted[1]));
        assert sorted[1..][0] == sorted[1];
      }
    } else {
      assert Before(key(sorted[0]), key(sorted[i]));
      assert sorted[1..][i - 1] == sorted[i];
      FirstAfterRow(sorted[1..], key, i - 1);
    }
  }

  /** A scan starts at the first row past the cursor, whether or not the cursor's own row is still there, or on top. */
  lemma {:induction false} StartExact<T>(sorted: seq<T>, cursor: string, key: T -> string)
    ensures var start := StartOf(sorted, Some(cursor), key);
            if exists i :: 0 <= i < |sorted| && Before(cursor, key(sorted[i]))
            then start < |sorted| && Before(cursor, key(sorted[start]))
                 && forall i :: 0 <= i < start ==> !Before(cursor, key(sorted[i]))
            else start == 0
    ensures StartOf(sorted, None, key) == 0
  {
    FirstAfterExact(sorted, cursor, key);
  }

  lemma {:induction false} FirstAfterExact<T>(sorted: seq<T>, cursor: string, key: T -> string)
    ensures var first := FirstAfter(sorted, cursor, key);
            && first <= |sorted|
            && (forall i :: 0 <= i < first ==> !Before(cursor, key(sorted[i])))
            && (first < |sorted| ==> Before(cursor, key(sorted[first])))
  {
    hide Before;
    if sorted != [] && !Before(cursor, key(sorted[0])) {
      FirstAfterExact(sorted[1..], cursor, key);
      var first := FirstAfter(sorted, cursor, key);
      forall i | 0 <= i < first ensures !Before(cursor, key(sorted[i])) {
        if i > 0 {
          assert sorted[1..][i - 1] == sorted[i];
        }
      }
    }
  }

  /** `j` steps from `start` around a circle of `n`. */
  function Around(start: nat, j: nat, n: nat): (i: nat)
    requires 0 < n
    ensures i < n
  {
    (start + j) % n
  }

  lemma AroundAdds(start: nat, a: nat, b: nat, n: nat)
    requires 0 < n
    ensures Around(Around(start, a, n), b, n) == Around(start, a + b, n)
  {
    var i := Around(start, a, n);
    DivUnique(start + a + b, n, (start + a) / n + (i + b) / n, (i + b) % n);
  }

  lemma RotatedTake<T>(sorted: seq<T>, start: nat, limit: nat, j: nat)
    requires start < |sorted|
    ensures |Take(Rotate(sorted, start), limit)| == Min(limit, |sorted|)
    ensures j < Min(limit, |sorted|) ==> Take(Rotate(sorted, start), limit)[j] == sorted[Around(start, j, |sorted|)]
  {
    var n := |sorted|;
    if j < Min(limit, n) {
      if start + j < n {
        DivUnique(start + j, n, 0, start + j);
      } else {
        DivUnique(start + j, n, 1, start + j - n);
      }
    }
  }

  /** The batch reads the sorted book circularly from its start. */
  lemma BatchIsCircular<T>(rows: seq<T>, key: T -> string, cursor: Option<string>, limit: nat, j: nat)
    requires rows != [] && DistinctKeys(rows, key)
    ensures var (batch, sorted) := (ScanBatch(rows, key, cursor, limit), SortBy(rows, key));
            && |sorted| == |rows|
            && |batch| == Min(limit, |rows|)
            && (j < |batch| ==> batch[j] == sorted[Around(StartOf(sorted, cursor, key), j, |rows|)])
  {
    hide SortBy, DistinctKeys, Rotate, Take, FirstAfter;
    SortByIsSorted(rows, key);
    var sorted := SortBy(rows, key);
    SameSize(sorted, rows);
    RotatedTake(sorted, StartOf(sorted, cursor, key), limit, j);
  }

  lemma NothingToScan<T>(key: T -> string, cursor: Option<string>, limit: nat)
    ensures ScanBatch([], key, cursor, limit) == []
  {
  }

  lemma SameSize<T>(s: seq<T>, t: seq<T>)
    requires multiset(s) == multiset(t)
    ensures |s| == |t|
  {
    assert |multiset(s)| == |s| && |multiset(t)| == |t|;
  }

  // ---- Runs of ticks ----

  /** One tick: the rows as the RPC listed them, the limit, and how many candidates it got to. */
  datatype Tick<T> = Tick(rows: seq<T>, limit: nat, started: nat)

  function Batch<T>(t: Tick<T>, key: T -> string, cursor: Option<string>): seq<T> {
    Take(ScanBatch(t.rows, key, cursor, t.limit), t.started)
  }

  /** The cursor is advanced to each candidate as it is started. */
  function CursorAfter<T>(ticks: seq<Tick<T>>, key: T -> string, cursor: Option<string>): Option<string> {
    if ticks == [] then cursor
    else
      var before := CursorAfter(ticks[..|ticks| - 1], key, cursor);
      var batch := Batch(ticks[|ticks| - 1], key, before);
      if batch == [] then before else Some(key(batch[|batch| - 1]))
  }

  /** Every candidate started, in order. */
  function Visits<T>(ticks: seq<Tick<T>>, key: T -> string, cursor: Option<string>): seq<T> {
    if ticks == [] then []
    else
      var init := ticks[..|ticks| - 1];
      Visits(init, key, cursor) + Batch(ticks[|ticks| - 1], key, CursorAfter(init, key, cursor))
  }

  /** The book does not change over the run, though its listing order may. */
  ghost predicate SameBook<T>(ticks: seq<Tick<T>>, book: seq<T>) {
    forall i :: 0 <= i < |ticks| ==> multiset(ticks[i].rows) == multiset(book)
  }

  lemma DistinctWhateverOrder<T>(rows: seq<T>, book: seq<T>, key: T -> string)
    requires multiset(rows) == multiset(book) && DistinctKeys(book, key)
    ensures DistinctKeys(rows, key)
  {
    forall i, j | 0 <= i < j < |rows| ensures key(rows[i]) != key(rows[j]) {
      if key(rows[i]) == key(rows[j]) {
        assert rows[i] in multiset(rows) && rows[j] in multiset(rows);
        var k :| 0 <= k < |book| && book[k] == rows[i];
        var l :| 0 <= l < |book| && book[l] == rows[j];
        assert k == l;
        TwiceInSeq(rows, i, j);
        OnceInSeq(book, k, key);
      }
    }
  }

  lemma TwiceInSeq<T>(s: seq<T>, i: nat, j: nat)
    requires i < j < |s| && s[i] == s[j]
    ensures multiset(s)[s[i]] >= 2
  {
    assert s == s[..i] + [s[i]] + s[i + 1..j] + [s[j]] + s[j + 1..];
  }

  lemma OnceInSeq<T>(s: seq<T>, k: nat, key: T -> string)
    requires k < |s| && DistinctKeys(s, key)
    ensures multiset(s)[s[k]] == 1
  {
    assert s == s[..k] + [s[k]] + s[k + 1..];
    assert s[k] !in s[..k] && s[k] !in s[k + 1..];
  }

  /** A tick continues exactly where the one before it stopped. */
  lemma TickContinues<T>(t: Tick<T>, book: seq<T>, key: T -> string, cursor: Option<string>, j: nat)
    requires book != [] && DistinctKeys(book, key) && multiset(t.rows) == multiset(book)
    ensures var (batch, sorted) := (Batch(t, key, cursor), SortBy(book, key));
            var n := |book|;
            && |sorted| == n
            && |batch| == Min(t.started, Min(t.limit, n))
            && (j < |batch| ==> batch[j] == sorted[Around(StartOf(sorted, cursor, key), j, n)])
            && var next := if batch == [] then cursor else Some(key(batch[|batch| - 1]));
               StartOf(sorted, next, key) == Around(StartOf(sorted, cursor, key), |batch|, n)
  {
    hide SortBy, ScanBatch, DistinctKeys, StartOf, Around;
    DistinctWhateverOrder(t.rows, book, key);
    SameSize(t.rows, book);
    SortByIsSorted(t.rows, key);
    SortByIsSorted(book, key);
    OrderedIsUnique(SortBy(t.rows, key), SortBy(book, key), key);
    BatchIsCircular(t.rows, key, cursor, t.limit, j);
    var batch := Batch(t, key, cursor);
    NextStart(SortBy(book, key), key, cursor, |batch|);
    if batch != [] {
      BatchIsCircular(t.rows, key, cursor, t.limit, |batch| - 1);
    }
  }

  lemma NextStart<T>(sorted: seq<T>, key: T -> string, cursor: Option<string>, m: nat)
    requires sorted != [] && Ordered(sorted, key)
    ensures var (start, n) := (StartOf(sorted, cursor, key), |sorted|);
            && start < n && Around(start, 0, n) == start
            && (m > 0 ==> StartOf(sorted, Some(key(sorted[Around(start, m - 1, n)])), key) == Around(start, m, n))
  {
    var (start, n) := (StartOf(sorted, cursor, key), |sorted|);
    DivUnique(start, n, 0, start);
    if m > 0 {
      var i := Around(start, m - 1, n);
      FirstAfterRow(sorted, key, i);
      AroundAdds(start, m - 1, 1, n);
      if i + 1 < n {
        DivUnique(i + 1, n, 0, i + 1);
      } else {
        DivUnique(i + 1, n, 1, 0);
      }
    }
  }

  // ---- The laws over every run ----

  lemma VisitsUnfold<T>(ticks: seq<Tick<T>>, key: T -> string, cursor: Option<string>, j: nat)
    requires ticks != []
    ensures var init := ticks[..|ticks| - 1];
            var (before, batch) := (Visits(init, key, cursor),
                                    Batch(ticks[|ticks| - 1], key, CursorAfter(init, key, cursor)));
            && |Visits(ticks, key, cursor)| == |before| + |batch|
            && (j < |before| ==> Visits(ticks, key, cursor)[j] == before[j])
            && (|before| <= j < |before| + |batch| ==> Visits(ticks, key, cursor)[j] == batch[j - |before|])
  {
    hide Batch, CursorAfter;
  }

  /** The visits of any run, however its ticks are cut short and resumed, read the sorted book circularly. */
  lemma {:induction false} VisitsAreCircular<T>(ticks: seq<Tick<T>>, book: seq<T>, key: T -> string,
                                                cursor: Option<string>, j: nat)
    requires book != [] && DistinctKeys(book, key) && SameBook(ticks, book)
    ensures var (visits, sorted) := (Visits(ticks, key, cursor), SortBy(book, key));
            var (start, n) := (StartOf(sorted, cursor, key), |book|);
            && |sorted| == n
            && (j < |visits| ==> visits[j] == sorted[Around(start, j, n)])
            && StartOf(sorted, CursorAfter(ticks, key, cursor), key) == Around(start, |visits|, n)
  {
    hide SortBy, DistinctKeys, StartOf, Batch, Min, Around;
    var (sorted, n) := (SortBy(book, key), |book|);
    SortByIsSorted(book, key);
    SameSize(sorted, book);
    var start := StartOf(sorted, cursor, key);
    if ticks == [] {
      hide Before;
      NextStart(sorted, key, cursor, 0);
    } else {
      hide Visits;
      var init := ticks[..|ticks| - 1];
      VisitsAreCircular(init, book, key, cursor, j);
      VisitsUnfold(ticks, key, cursor, j);
      var before := |Visits(init, key, cursor)|;
      var here := CursorAfter(init, key, cursor);
      var k: nat := if j < before then 0 else j - before;
      TickContinues(ticks[|ticks| - 1], book, key, here, k);
      AroundAdds(start, before, k, n);
      AroundAdds(start, before, |Batch(ticks[|ticks| - 1], key, here)|, n);
    }
  }

  lemma {:induction false} SortedHas<T>(book: seq<T>, key: T -> string, row: T) returns (i: nat)
    requires DistinctKeys(book, key) && row in book
    ensures i < |SortBy(book, key)| && SortBy(book, key)[i] == row
  {
    SortByIsSorted(book, key);
    assert row in multiset(book);
    assert row in SortBy(book, key);
    i :| 0 <= i < |SortBy(book, key)| && SortBy(book, key)[i] == row;
  }

  /**
   * Nothing is visited again until everything else has been: any `|book|` visits in a row are all different and miss
   * nothing.
   */
  lemma NoneStarves<T>(ticks: seq<Tick<T>>, book: seq<T>, key: T -> string, cursor: Option<string>, from: nat, row: T)
    requires book != [] && DistinctKeys(book, key) && SameBook(ticks, book) && row in book
    requires from + |book| <= |Visits(ticks, key, cursor)|
    ensures row in Visits(ticks, key, cursor)[from..from + |book|]
    ensures forall j, k :: from <= j < k < from + |book| ==>
        Visits(ticks, key, cursor)[j] != Visits(ticks, key, cursor)[k]
  {
    hide SortBy, DistinctKeys, StartOf, Visits, SameBook, Around;
    var (visits, sorted, n) := (Visits(ticks, key, cursor), SortBy(book, key), |book|);
    SortByIsSorted(book, key);
    SameSize(sorted, book);
    var start := StartOf(sorted, cursor, key);
    var i := SortedHas(book, key, row);
    var j := CircularHit(start, from, i, n);
    VisitsAreCircular(ticks, book, key, cursor, from + j);
    assert visits[from..from + n][j] == row;
    forall j, k | from <= j < k < from + n ensures visits[j] != visits[k] {
      VisitsAreCircular(ticks, book, key, cursor, j);
      VisitsAreCircular(ticks, book, key, cursor, k);
      CircularDistinct(start, j, k, n);
      OrderedDistinct(sorted, key, Around(start, j, n), Around(start, k, n));
    }
  }

  lemma OrderedDistinct<T>(sorted: seq<T>, key: T -> string, i: nat, j: nat)
    requires Ordered(sorted, key) && i < |sorted| && j < |sorted| && i != j
    ensures sorted[i] != sorted[j]
  {
    BeforeIsStrict(key(sorted[i]), key(sorted[j]));
  }

  lemma CircularHit(start: nat, from: nat, i: nat, n: nat) returns (j: nat)
    requires i < n
    ensures j < n && Around(start, from + j, n) == i
  {
    var (q, r) := ((start + from) / n, (start + from) % n);
    j := if r <= i then i - r else n + i - r;
    DivUnique(start + from + j, n, if r <= i then q else q + 1, i);
  }

  lemma CircularDistinct(start: nat, j: nat, k: nat, n: nat)
    requires j < k < j + n
    ensures Around(start, j, n) != Around(start, k, n)
  {
    var (q, r, d) := ((start + j) / n, (start + j) % n, k - j);
    if r + d < n {
      DivUnique(start + k, n, q, r + d);
    } else {
      DivUnique(start + k, n, q + 1, r + d - n);
    }
  }

  /** A tick is full when it gets to every candidate of its batch. */
  predicate AllFull<T>(ticks: seq<Tick<T>>, limit: nat) {
    forall i :: 0 <= i < |ticks| ==> ticks[i].limit == limit && limit <= ticks[i].started
  }

  lemma {:induction false} FullTicksAdvance<T>(ticks: seq<Tick<T>>, book: seq<T>, key: T -> string,
                                               cursor: Option<string>, limit: nat)
    requires book != [] && DistinctKeys(book, key) && SameBook(ticks, book) && AllFull(ticks, limit)
    ensures |Visits(ticks, key, cursor)| == |ticks| * Min(limit, |book|)
  {
    hide DistinctKeys, Batch, SortBy, StartOf, Min, CursorAfter;
    if ticks == [] {
    } else {
      var (init, batch) := (ticks[..|ticks| - 1], Min(limit, |book|));
      FullTicksAdvance(init, book, key, cursor, limit);
      FullBatch(ticks[|ticks| - 1], book, key, CursorAfter(init, key, cursor), limit);
      assert |ticks| * batch == |init| * batch + batch by { MulSucc(|init|, batch); }
    }
  }

  lemma MulSucc(k: nat, b: int)
    ensures (k + 1) * b == k * b + b
  {
  }

  lemma FullBatch<T>(t: Tick<T>, book: seq<T>, key: T -> string, cursor: Option<string>, limit: nat)
    requires book != [] && DistinctKeys(book, key) && multiset(t.rows) == multiset(book)
    requires t.limit == limit <= t.started
    ensures |Batch(t, key, cursor)| == Min(limit, |book|)
  {
    hide DistinctKeys, Batch, SortBy, StartOf;
    TickContinues(t, book, key, cursor, 0);
  }

  /** Wherever the cursor starts, every position is visited within ⌈n / limit⌉ full ticks. */
  lemma CoveredWithinRounds<T>(ticks: seq<Tick<T>>, book: seq<T>, key: T -> string, cursor: Option<string>, limit: nat,
                               row: T)
    requires book != [] && DistinctKeys(book, key) && SameBook(ticks, book) && AllFull(ticks, limit) && row in book
    requires 0 < limit && |ticks| >= (|book| + limit - 1) / limit
    ensures row in Visits(ticks, key, cursor)
  {
    hide DistinctKeys, Visits, SameBook;
    FullTicksAdvance(ticks, book, key, cursor, limit);
    RoundsSuffice(|book|, limit, |ticks|);
    NoneStarves(ticks, book, key, cursor, 0, row);
  }

  lemma RoundsSuffice(n: nat, limit: nat, ticks: nat)
    requires 0 < n && 0 < limit && ticks >= (n + limit - 1) / limit
    ensures n <= ticks * Min(limit, n)
  {
    var q := (n + limit - 1) / limit;
    if limit <= n {
      MulMono(q, ticks, limit);
    } else {
      DivUnique(n + limit - 1, limit, 1, n - 1);
      MulMono(1, ticks, n);
    }
  }
}
