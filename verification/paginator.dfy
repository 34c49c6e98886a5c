/** `Paginator.paginate_sections`: the page links shown under a result list. The pages
    `1..n` are cut into a left window (the first five pages), a middle window around the
    current page and a right window (the last five pages), using Python's slice rules.
    The left and middle windows, and the middle and right windows, are merged into one
    sorted run when they share a page and are otherwise kept apart by a separator. The
    left and right windows are never compared with each other, so they can show a page
    twice (`PageShownTwice`). */
module Paginator {

  /** A link in the pagination bar: a page number, or the `None` separator. */
  datatype Link = Page(number: int) | Gap

  // ---------------------------------------------------------------- Python sequences

  /** `range(1, n + 1)`, Django's `page_range`. */
  function Pages(n: nat): (r: seq<int>)
    ensures |r| == n && forall i :: 0 <= i < n ==> r[i] == i + 1
  {
    seq(n, i => i + 1)
  }

  /** The consecutive integers `a, a + 1, ..., a + len - 1`. */
  function Run(a: int, len: nat): (r: seq<int>)
    ensures |r| == len && forall i :: 0 <= i < len ==> r[i] == a + i
  {
    seq(len, i => a + i)
  }

  /** How Python normalises a slice bound for a sequence of length `len`: a negative bound
      counts from the end, and the result is clamped into `0..len`. */
  function Clamp(i: int, len: nat): (k: nat)
    ensures k <= len
  {
    if i < 0 then (if i + len < 0 then 0 else i + len)
    else if i > len then len
    else i
  }

  /** `s[a:b]` in Python. */
  function Slice<T>(s: seq<T>, a: int, b: int): seq<T> {
    var lo := Clamp(a, |s|);
    var hi := Clamp(b, |s|);
    if lo < hi then s[lo..hi] else []
  }

  /** `set(s)`. */
  function Elems(s: seq<int>): set<int> {
    set x | x in s
  }

  predicate Increasing(s: seq<int>) {
    forall i, j :: 0 <= i < j < |s| ==> s[i] < s[j]
  }

  predicate Within(s: seq<int>, n: int) {
    forall i :: 0 <= i < |s| ==> 1 <= s[i] <= n
  }

  /** Inserts `x` into an increasing sequence, unless it is there already. */
  function Insert(x: int, s: seq<int>): (r: seq<int>)
    requires Increasing(s)
    ensures Increasing(r)
    ensures forall y :: y in r <==> y == x || y in s
  {
    if s == [] then [x]
    else if x < s[0] then [x] + s
    else if x == s[0] then s
    else
      var rest := Insert(x, s[1..]);
      assert forall y :: y in s[1..] ==> s[0] < y;
      ConsIncreasing(s[0], rest);
      [s[0]] + rest
  }

  /** An element below everything in an increasing sequence can go in front of it. */
  lemma ConsIncreasing(a: int, rest: seq<int>)
    requires Increasing(rest) && forall y :: y in rest ==> a < y
    ensures Increasing([a] + rest)
  {
    forall i, j | 0 <= i < j < |rest| + 1
      ensures ([a] + rest)[i] < ([a] + rest)[j]
    {
      assert ([a] + rest)[j] == rest[j - 1] && rest[j - 1] in rest;
      assert i == 0 || ([a] + rest)[i] == rest[i - 1];
    }
  }

  /** `sorted(set(xs))`: the distinct elements of `xs`, in increasing order. */
  function SortedSet(xs: seq<int>): (r: seq<int>)
    ensures Increasing(r)
    ensures forall y :: y in r <==> y in xs
  {
    if xs == [] then [] else Insert(xs[0], SortedSet(xs[1..]))
  }

  /** `list(s)` with every page made a link. */
  function Links(s: seq<int>): (r: seq<Link>)
    ensures |r| == |s| && forall i :: 0 <= i < |s| ==> r[i] == Page(s[i])
  {
    seq(|s|, i requires 0 <= i < |s| => Page(s[i]))
  }

  // ---------------------------------------------------------------- the windows

  /** `int(self._page_number) or 1`. */
  function Index(pageNumber: int): (r: int)
    ensures r != 0 && (pageNumber != 0 ==> r == pageNumber)
  {
    if pageNumber == 0 then 1 else pageNumber
  }

  /** `items[0:5]`: the first five pages, or all of them when there are fewer. */
  function Left(n: nat): (r: seq<int>)
    ensures r == Run(1, if n < 5 then n else 5)
  {
    SliceOfPages(n, 0, 5);
    Slice(Pages(n), 0, 5)
  }

  /** `items[index-3:index+4] or items[0:index+1]`: an empty range is false in Python.
      For a page number that `page` accepts, the window runs from two pages before the
      current one to four after it or, near the start of a long range where that slice is
      empty, from the first page to the one after the current one; it is never empty. */
  function Middle(n: nat, index: int): (r: seq<int>)
    ensures 1 <= index <= n ==> r != []
    ensures 3 <= index <= n ==> r == Run(index - 2, (if index + 4 < n then index + 4 else n) - index + 3)
    ensures 1 <= index < 3 && n >= 7 ==> r == Run(1, index + 1)
  {
    SliceOfPages(n, index - 3, index + 4);
    SliceOfPages(n, 0, index + 1);
    var m := Slice(Pages(n), index - 3, index + 4);
    if m != [] then m else Slice(Pages(n), 0, index + 1)
  }

  /** `items[-5:]`: the last five pages, or all of them when there are fewer. */
  function Right(n: nat): (r: seq<int>)
    ensures var k := if n < 5 then n else 5; r == Run(n - k + 1, k)
  {
    SliceOfPages(n, -5, n);
    Slice(Pages(n), -5, n)
  }

  /** The merging step of `paginate_sections`: merge the windows that share a page, with a separator between those
      that do not. `sorted(L_s | M_s)` is `sorted(set(L + M))`. */
  function Assemble(l: seq<int>, m: seq<int>, r: seq<int>): (a: seq<Link>)
    ensures multiset(a)[Gap] == (if Elems(l) !! Elems(m) then 1 else 0) + (if Elems(m) !! Elems(r) then 1 else 0)
    ensures Elems(l) !! Elems(m) ==> |a| > |l| && a[..|l|] == Links(l) && a[|l|] == Gap
    ensures Elems(m) !! Elems(r) ==> |a| > |r| && a[|a| - |r|..] == Links(r) && a[|a| - |r| - 1] == Gap
  {
    var ls, ms, rs := Elems(l), Elems(m), Elems(r);
    var d1 := ls !! ms;
    var d2 := ms !! rs;
    NoGapInLinks(l);
    NoGapInLinks(m);
    NoGapInLinks(r);
    NoGapInLinks(SortedSet(l + m));
    NoGapInLinks(SortedSet(m + r));
    NoGapInLinks(SortedSet(l + m + r));
    if d1 && d2 then
      GapBetween(Links(l), Links(m) + [Gap] + Links(r));
      GapBetween(Links(l) + [Gap] + Links(m), Links(r));
      Links(l) + [Gap] + Links(m) + [Gap] + Links(r)
    else if !d1 && d2 then
      GapBetween(Links(SortedSet(l + m)), Links(r));
      Links(SortedSet(l + m)) + [Gap] + Links(r)
    else if d1 && !d2 then
      GapBetween(Links(l), Links(SortedSet(m + r)));
      Links(l) + [Gap] + Links(SortedSet(m + r))
    else Links(SortedSet(l + m + r))
  }

  /** `x`, a separator, then `y`: where the two parts and the separator sit. */
  lemma GapBetween(x: seq<Link>, y: seq<Link>)
    ensures var a := x + [Gap] + y;
            && |a| == |x| + 1 + |y| && a[..|x|] == x && a[|x|] == Gap
            && a[|a| - |y|..] == y && a[|a| - |y| - 1] == Gap
            && a == x + ([Gap] + y) && multiset(a)[Gap] == multiset(x)[Gap] + 1 + multiset(y)[Gap]
  {
  }

  lemma NoGapInLinks(s: seq<int>)
    ensures multiset(Links(s))[Gap] == 0
  {
    assert Gap !in Links(s);
  }

  /** `paginate_sections` for `n` pages and the page number last passed to `page`. */
  function PaginateSections(n: nat, pageNumber: int): (bar: seq<Link>)
    ensures forall x :: Page(x) in bar ==> 1 <= x <= n
  {
    AssembleWithin(n, Index(pageNumber));
    Assemble(Left(n), Middle(n, Index(pageNumber)), Right(n))
  }

  lemma AssembleWithin(n: nat, index: int)
    ensures forall x :: Page(x) in Assemble(Left(n), Middle(n, index), Right(n)) ==> 1 <= x <= n
  {
    var l, m, r := Left(n), Middle(n, index), Right(n);
    WindowsWithin(n, index);
    WithinMembers(l, n);
    WithinMembers(m, n);
    WithinMembers(r, n);
    AssembleProperties(l, m, r);
  }

  // ---------------------------------------------------------------- slices of the page range

  lemma SliceOfPages(n: nat, a: int, b: int)
    ensures Slice(Pages(n), a, b)
            == Run(Clamp(a, n) + 1, if Clamp(a, n) < Clamp(b, n) then Clamp(b, n) - Clamp(a, n) else 0)
  {
  }

  lemma RunWithin(a: int, len: nat, n: int)
    requires 1 <= a && a + len - 1 <= n
    ensures Increasing(Run(a, len)) && Within(Run(a, len), n)
  {
  }

  lemma SliceWithin(n: nat, a: int, b: int)
    ensures Increasing(Slice(Pages(n), a, b)) && Within(Slice(Pages(n), a, b), n)
  {
    SliceOfPages(n, a, b);
    var lo, hi := Clamp(a, n), Clamp(b, n);
    RunWithin(lo + 1, if lo < hi then hi - lo else 0, n);
  }

  /** Every window is an increasing run of pages of `1..n`, whatever the page number. */
  lemma WindowsWithin(n: nat, index: int)
    ensures Increasing(Left(n)) && Within(Left(n), n)
    ensures Increasing(Middle(n, index)) && Within(Middle(n, index), n)
    ensures Increasing(Right(n)) && Within(Right(n), n)
  {
    SliceWithin(n, 0, 5);
    SliceWithin(n, -5, n);
    SliceWithin(n, index - 3, index + 4);
    SliceWithin(n, 0, index + 1);
  }

  // ---------------------------------------------------------------- reading the bar

  /** The page numbers of a bar, in order, separators dropped. */
  function PagesOf(r: seq<Link>): seq<int> {
    if r == [] then [] else (if r[0].Page? then [r[0].number] else []) + PagesOf(r[1..])
  }

  lemma {:induction false} PagesOfAppend(a: seq<Link>, b: seq<Link>)
    ensures PagesOf(a + b) == PagesOf(a) + PagesOf(b)
  {
    if a != [] {
      assert (a + b)[0] == a[0] && (a + b)[1..] == a[1..] + b;
      PagesOfAppend(a[1..], b);
    } else {
      assert a + b == b;
    }
  }

  lemma {:induction false} PagesOfLinks(s: seq<int>)
    ensures PagesOf(Links(s)) == s
  {
    if s != [] {
      assert Links(s)[1..] == Links(s[1..]);
      PagesOfLinks(s[1..]);
    }
  }

  /** Adjacent pages increase: the runs between separators are increasing. */
  predicate SegmentsIncreasing(r: seq<Link>) {
    forall i :: 0 <= i < |r| - 1 && r[i].Page? && r[i + 1].Page? ==> r[i].number < r[i + 1].number
  }

  lemma LinksSegments(s: seq<int>)
    requires Increasing(s)
    ensures SegmentsIncreasing(Links(s)) && Gap !in Links(s)
  {
  }

  lemma GapThen(a: seq<Link>, s: seq<int>)
    requires SegmentsIncreasing(a) && Increasing(s)
    ensures SegmentsIncreasing(a + [Gap] + Links(s))
  {
    var r := a + [Gap] + Links(s);
    forall i | 0 <= i < |r| - 1 && r[i].Page? && r[i + 1].Page?
      ensures r[i].number < r[i + 1].number
    {
      if i < |a| - 1 {
        assert r[i] == a[i] && r[i + 1] == a[i + 1];
      } else {
        assert i > |a|;
        assert r[i] == Page(s[i - |a| - 1]) && r[i + 1] == Page(s[i - |a|]);
      }
    }
  }

  /** The three ways a bar is put together: one run, two runs, three runs. */
  lemma AssembleShape(l: seq<int>, m: seq<int>, r: seq<int>)
    ensures || Assemble(l, m, r) == Links(l) + [Gap] + Links(m) + [Gap] + Links(r)
            || Assemble(l, m, r) == Links(SortedSet(l + m)) + [Gap] + Links(r)
            || Assemble(l, m, r) == Links(l) + [Gap] + Links(SortedSet(m + r))
            || Assemble(l, m, r) == Links(SortedSet(l + m + r))
  {
  }

  lemma OneRun(a: seq<int>)
    requires Increasing(a)
    ensures forall x :: Page(x) in Links(a) <==> x in a
    ensures multiset(Links(a))[Gap] == 0 && SegmentsIncreasing(Links(a))
  {
    LinksSegments(a);
  }

  lemma TwoRuns(a: seq<int>, b: seq<int>)
    requires Increasing(a) && Increasing(b)
    ensures forall x :: Page(x) in Links(a) + [Gap] + Links(b) <==> x in a || x in b
    ensures multiset(Links(a) + [Gap] + Links(b))[Gap] == 1
    ensures SegmentsIncreasing(Links(a) + [Gap] + Links(b))
  {
    OneRun(a);
    OneRun(b);
    GapThen(Links(a), b);
  }

  lemma ThreeRuns(a: seq<int>, b: seq<int>, c: seq<int>)
    requires Increasing(a) && Increasing(b) && Increasing(c)
    ensures forall x :: Page(x) in Links(a) + [Gap] + Links(b) + [Gap] + Links(c) <==> x in a || x in b || x in c
    ensures multiset(Links(a) + [Gap] + Links(b) + [Gap] + Links(c))[Gap] == 2
    ensures SegmentsIncreasing(Links(a) + [Gap] + Links(b) + [Gap] + Links(c))
  {
    TwoRuns(a, b);
    OneRun(c);
    GapThen(Links(a) + [Gap] + Links(b), c);
  }

  /** Whatever the windows, the bar shows exactly their pages, with at most two
      separators, increasing between separators. */
  lemma AssembleProperties(l: seq<int>, m: seq<int>, r: seq<int>)
    requires Increasing(l) && Increasing(m) && Increasing(r)
    ensures forall x :: Page(x) in Assemble(l, m, r) <==> x in l || x in m || x in r
    ensures multiset(Assemble(l, m, r))[Gap] <= 2
    ensures SegmentsIncreasing(Assemble(l, m, r))
  {
    var a := Assemble(l, m, r);
    var lm, mr, lmr := SortedSet(l + m), SortedSet(m + r), SortedSet(l + m + r);
    AssembleShape(l, m, r);
    if a == Links(l) + [Gap] + Links(m) + [Gap] + Links(r) {
      ThreeRuns(l, m, r);
    } else if a == Links(lm) + [Gap] + Links(r) {
      TwoRuns(lm, r);
    } else if a == Links(l) + [Gap] + Links(mr) {
      TwoRuns(l, mr);
    } else {
      OneRun(lmr);
    }
  }

  // ---------------------------------------------------------------- what the bar shows

  /** `paginate_sections` shows exactly the pages of its three windows, with at most two
      separators and increasing runs between them; a page
      number of 0 is read as 1. */
  lemma BarShowsWindows(n: nat, pageNumber: int)
    ensures forall x :: Page(x) in PaginateSections(n, pageNumber) <==>
              x in Left(n) || x in Middle(n, Index(pageNumber)) || x in Right(n)
    ensures multiset(PaginateSections(n, pageNumber))[Gap] <= 2
    ensures SegmentsIncreasing(PaginateSections(n, pageNumber))
    ensures PaginateSections(n, 0) == PaginateSections(n, 1)
  {
    var l, m, r := Left(n), Middle(n, Index(pageNumber)), Right(n);
    WindowsWithin(n, Index(pageNumber));
    AssembleProperties(l, m, r);
    ZeroReadsAsOne(n);
  }

  lemma WithinMembers(s: seq<int>, n: int)
    requires Within(s, n)
    ensures forall x :: x in s ==> 1 <= x <= n
  {
    forall x | x in s
      ensures 1 <= x <= n
    {
      var i :| 0 <= i < |s| && s[i] == x;
    }
  }

  lemma ZeroReadsAsOne(n: nat)
    ensures PaginateSections(n, 0) == PaginateSections(n, 1)
  {
    assert Index(0) == Index(1);
  }

  /** For a page number that `page` accepts, the first page, the last page and the
      current page are all in the bar. */
  lemma CurrentAndEndsShown(n: nat, p: int)
    requires 1 <= p <= n
    ensures Page(1) in PaginateSections(n, p) && Page(n) in PaginateSections(n, p)
    ensures Page(p) in PaginateSections(n, p)
  {
    EndsAndCurrentInWindows(n, p);
    BarShowsWindows(n, p);
  }

  lemma EndsAndCurrentInWindows(n: nat, p: int)
    requires 1 <= p <= n
    ensures 1 in Left(n) && n in Right(n) && (p in Left(n) || p in Middle(n, p))
  {
    assert Left(n)[0] == 1 && Right(n)[|Right(n)| - 1] == n;
    if p >= 3 {
      assert Middle(n, p)[2] == p;
    } else {
      assert Left(n)[p - 1] == p;
    }
  }

  lemma TailMembers(a: seq<int>)
    requires Increasing(a) && a != []
    ensures forall x :: x in a[1..] <==> x in a && x != a[0]
  {
    forall x | x in a && x != a[0]
      ensures x in a[1..]
    {
      var i :| 0 <= i < |a| && a[i] == x;
      assert a[1..][i - 1] == x;
    }
  }

  /** Two increasing sequences with the same elements are equal. */
  lemma {:induction false} IncreasingUnique(a: seq<int>, b: seq<int>)
    requires Increasing(a) && Increasing(b)
    requires forall x :: x in a <==> x in b
    ensures a == b
  {
    assert a == [] || a[0] in a;
    assert b == [] || b[0] in b;
    if a != [] && b != [] {
      assert a[0] == b[0] by {
        assert a[0] in a && b[0] in b;
      }
      TailMembers(a);
      TailMembers(b);
      IncreasingUnique(a[1..], b[1..]);
      assert a == [a[0]] + a[1..] && b == [b[0]] + b[1..];
    }
  }

  /** When both pairs of neighbouring windows share a page, the bar is their sorted union. */
  lemma AllMerged(l: seq<int>, m: seq<int>, r: seq<int>)
    requires !(Elems(l) !! Elems(m)) && !(Elems(m) !! Elems(r))
    ensures Assemble(l, m, r) == Links(SortedSet(l + m + r))
  {
  }

  lemma CoveredByRun(l: seq<int>, m: seq<int>, r: seq<int>, n: nat)
    requires l == Run(1, n) && r == Run(1, n) && Within(m, n)
    ensures forall x :: x in l + m + r <==> x in Run(1, n)
  {
    forall x | x in m
      ensures x in Run(1, n)
    {
      var i :| 0 <= i < |m| && m[i] == x;
      assert Run(1, n)[x - 1] == x;
    }
  }

  /** With five pages or fewer, the bar is every page, with no separator. */
  lemma FewPages(n: nat, p: int)
    requires 1 <= p <= n <= 5
    ensures PaginateSections(n, p) == Links(Run(1, n))
  {
    WindowsWithin(n, p);
    var l, m, r := Left(n), Middle(n, p), Right(n);
    assert l == Run(1, n) && r == Run(1, n);
    OneWindowAssembles(m, n);
    assert PaginateSections(n, p) == Assemble(l, m, r);
  }

  /** When the outer windows are both the whole range, the bar is the whole range. */
  lemma OneWindowAssembles(m: seq<int>, n: nat)
    requires m != [] && Within(m, n)
    ensures Assemble(Run(1, n), m, Run(1, n)) == Links(Run(1, n))
  {
    var l := Run(1, n);
    assert m[0] in Elems(l) && m[0] in Elems(m) by {
      assert l[m[0] - 1] == m[0];
    }
    AllMerged(l, m, l);
    CoveredByRun(l, m, l, n);
    IncreasingUnique(SortedSet(l + m + l), l);
  }

  lemma RunsApart(a: int, k: nat, b: int, j: nat)
    requires a + k <= b
    ensures Elems(Run(a, k)) !! Elems(Run(b, j))
  {
  }

  /** Far from both ends (at least seven pages from the first and eight from the last),
      the bar is the first five pages, a separator, the seven pages around the current
      one, a separator and the last five pages. */
  lemma FarFromBothEnds(n: nat, p: int)
    requires 8 <= p && p + 8 < n
    ensures PaginateSections(n, p)
            == Links(Run(1, 5)) + [Gap] + Links(Run(p - 2, 7)) + [Gap] + Links(Run(n - 4, 5))
  {
    var l, m, r := Left(n), Middle(n, p), Right(n);
    assert l == Run(1, 5) && m == Run(p - 2, 7) && r == Run(n - 4, 5);
    RunsApart(1, 5, p - 2, 7);
    RunsApart(p - 2, 7, n - 4, 5);
    assert PaginateSections(n, p) == Assemble(l, m, r);
  }

  /** On page 1 or 2 of a range of eight pages or more, the slice around the current page
      is empty and the fallback `items[0:index+1]` merges into the left window: the bar is
      the first five pages, a separator and the last five (which repeats pages when there
      are fewer than ten, since the left and right windows are not compared). */
  lemma NearTheStart(n: nat, p: int)
    requires 1 <= p <= 2 && 8 <= n
    ensures PaginateSections(n, p) == Links(Run(1, 5)) + [Gap] + Links(Run(n - 4, 5))
  {
    var l, m := Left(n), Middle(n, p);
    assert l[0] == 1 && m[0] == 1;
    assert 1 in Elems(l) && 1 in Elems(m);
    RunsApart(1, p + 1, n - 4, 5);
    IncreasingUnique(SortedSet(l + m), Run(1, 5));
  }

  // ---------------------------------------------------------------- a page shown twice

  lemma RepeatAtStart(n: nat, p: int)
    requires n == 9 && p == 1
    ensures PaginateSections(n, p) == Links(Run(1, 5)) + [Gap] + Links(Run(5, 5))
  {
    var l, m := Left(n), Middle(n, p);
    assert l[0] == 1 && m[0] == 1;
    assert 1 in Elems(l) && 1 in Elems(m);
    RunsApart(1, 2, 5, 5);
    IncreasingUnique(SortedSet(l + m), Run(1, 5));
  }

  lemma RepeatAtEnd(n: nat, p: int)
    requires n == 9 && p == 9
    ensures PaginateSections(n, p) == Links(Run(1, 5)) + [Gap] + Links(Run(5, 5))
  {
    var m, r := Middle(n, p), Right(n);
    assert m[2] == 9 && r[4] == 9;
    assert 9 in Elems(m) && 9 in Elems(r);
    RunsApart(1, 5, 7, 3);
    assert forall x :: x in m + r <==> x in Run(5, 5);
    IncreasingUnique(SortedSet(m + r), Run(5, 5));
  }

  /** With nine pages, on the first or the last page, the left and right windows share
      page 5 but are never compared: the bar is 1 2 3 4 5 … 5 6 7 8 9, page 5 twice,
      with a separator that skips nothing. */
  lemma PageShownTwice(n: nat, p: int)
    requires n == 9 && (p == 1 || p == 9)
    ensures PaginateSections(n, p)[4] == Page(5) && PaginateSections(n, p)[5] == Gap
    ensures PaginateSections(n, p)[6] == Page(5)
    ensures !Increasing(PagesOf(PaginateSections(n, p)))
  {
    if p == 1 {
      RepeatAtStart(n, p);
    } else {
      RepeatAtEnd(n, p);
    }
    FiveTwice();
  }

  lemma FiveTwice()
    ensures var bar := Links(Run(1, 5)) + [Gap] + Links(Run(5, 5));
            bar[4] == Page(5) && bar[5] == Gap && bar[6] == Page(5) && !Increasing(PagesOf(bar))
  {
    PagesOfTwo(Run(1, 5), Run(5, 5));
    var pages := PagesOf(Links(Run(1, 5)) + [Gap] + Links(Run(5, 5)));
    assert pages[4] == 5 == pages[5];
  }

  // ---------------------------------------------------------------- every page once

  /** The bar with the left and right windows also merged when they share a page, as the
      docstring of `paginate_sections` describes ("if sections are overlapping, they're merged"). */
  function PaginateSectionsMerged(n: nat, pageNumber: int): seq<Link> {
    var l, m, r := Left(n), Middle(n, Index(pageNumber)), Right(n);
    if Elems(l) !! Elems(r) then Assemble(l, m, r) else Links(SortedSet(l + m + r))
  }

  lemma PagesOfTwo(a: seq<int>, b: seq<int>)
    ensures PagesOf(Links(a) + [Gap] + Links(b)) == a + b
  {
    PagesOfAppend(Links(a) + [Gap], Links(b));
    PagesOfAppend(Links(a), [Gap]);
    PagesOfLinks(a);
    PagesOfLinks(b);
    assert PagesOf([Gap]) == [];
  }

  lemma PagesOfThree(a: seq<int>, b: seq<int>, c: seq<int>)
    ensures PagesOf(Links(a) + [Gap] + Links(b) + [Gap] + Links(c)) == a + b + c
  {
    PagesOfAppend(Links(a) + [Gap] + Links(b) + [Gap], Links(c));
    PagesOfAppend(Links(a) + [Gap] + Links(b), [Gap]);
    PagesOfTwo(a, b);
    PagesOfLinks(c);
    assert PagesOf([Gap]) == [];
  }

  predicate Before(a: seq<int>, b: seq<int>) {
    forall x, y :: x in a && y in b ==> x < y
  }

  lemma IncreasingJoin(a: seq<int>, b: seq<int>)
    requires Increasing(a) && Increasing(b) && Before(a, b)
    ensures Increasing(a + b)
  {
    forall i, j | 0 <= i < j < |a + b|
      ensures (a + b)[i] < (a + b)[j]
    {
      if j < |a| {
        assert (a + b)[i] == a[i] && (a + b)[j] == a[j];
      } else if i >= |a| {
        assert (a + b)[i] == b[i - |a|] && (a + b)[j] == b[j - |a|];
      } else {
        assert (a + b)[i] in a && (a + b)[j] in b;
      }
    }
  }

  /** The windows of a range of ten pages or more: the left one is pages 1 to 5, the
      right one the last five pages, and the middle one lies within the range. */
  ghost predicate Spread(l: seq<int>, m: seq<int>, r: seq<int>, n: int) {
    && n >= 10
    && (forall x :: x in l <==> 1 <= x <= 5)
    && (forall x :: x in r <==> n - 4 <= x <= n)
    && Within(m, n)
    && Increasing(l) && Increasing(m) && Increasing(r)
  }

  lemma SpreadWindows(n: nat, index: int)
    requires n >= 10
    ensures Spread(Left(n), Middle(n, index), Right(n), n)
  {
    WindowsWithin(n, index);
    forall x | 1 <= x <= 5
      ensures x in Left(n)
    {
      assert Left(n)[x - 1] == x;
    }
    forall x | n - 4 <= x <= n
      ensures x in Right(n)
    {
      assert Right(n)[x - n + 4] == x;
    }
  }

  lemma MiddleBounds(l: seq<int>, m: seq<int>, r: seq<int>, n: int)
    requires Spread(l, m, r, n)
    ensures forall x :: x in m && x !in l ==> 5 < x <= n
    ensures forall x :: x in m && x !in r ==> 1 <= x < n - 4
  {
    forall x | x in m
      ensures 1 <= x <= n
    {
      var i :| 0 <= i < |m| && m[i] == x;
    }
  }

  lemma ThreeApart(l: seq<int>, m: seq<int>, r: seq<int>, n: int)
    requires Spread(l, m, r, n) && Elems(l) !! Elems(m) && Elems(m) !! Elems(r)
    ensures Increasing(l + m + r)
  {
    MiddleBounds(l, m, r, n);
    assert forall x :: x in m ==> x !in l && x !in r by {
      forall x | x in m
        ensures x !in l && x !in r
      {
        assert x in Elems(m);
      }
    }
    IncreasingJoin(l, m);
    IncreasingJoin(l + m, r);
  }

  lemma LeftMergedApart(l: seq<int>, m: seq<int>, r: seq<int>, n: int)
    requires Spread(l, m, r, n) && Elems(m) !! Elems(r)
    ensures Increasing(SortedSet(l + m) + r)
  {
    MiddleBounds(l, m, r, n);
    assert forall x :: x in m ==> x !in r by {
      forall x | x in m
        ensures x !in r
      {
        assert x in Elems(m);
      }
    }
    IncreasingJoin(SortedSet(l + m), r);
  }

  lemma RightMergedApart(l: seq<int>, m: seq<int>, r: seq<int>, n: int)
    requires Spread(l, m, r, n) && Elems(l) !! Elems(m)
    ensures Increasing(l + SortedSet(m + r))
  {
    MiddleBounds(l, m, r, n);
    assert forall x :: x in m ==> x !in l by {
      forall x | x in m
        ensures x !in l
      {
        assert x in Elems(m);
      }
    }
    IncreasingJoin(l, SortedSet(m + r));
  }

  /** From ten pages on, the pages of `paginate_sections` strictly increase. */
  lemma ManyPagesIncrease(n: nat, pageNumber: int)
    requires n >= 10
    ensures Increasing(PagesOf(PaginateSections(n, pageNumber)))
  {
    var l, m, r := Left(n), Middle(n, Index(pageNumber)), Right(n);
    SpreadWindows(n, Index(pageNumber));
    AssembleShape(l, m, r);
    var d1, d2 := Elems(l) !! Elems(m), Elems(m) !! Elems(r);
    if d1 && d2 {
      PagesOfThree(l, m, r);
      ThreeApart(l, m, r, n);
    } else if !d1 && d2 {
      PagesOfTwo(SortedSet(l + m), r);
      LeftMergedApart(l, m, r, n);
    } else if d1 && !d2 {
      PagesOfTwo(l, SortedSet(m + r));
      RightMergedApart(l, m, r, n);
    } else {
      PagesOfLinks(SortedSet(l + m + r));
    }
  }

  /** From ten pages on, the left and right windows are apart and nothing changes. */
  lemma MergedManyPages(n: nat, pageNumber: int)
    requires n >= 10
    ensures PaginateSectionsMerged(n, pageNumber) == PaginateSections(n, pageNumber)
  {
    RunsApart(1, 5, n - 4, 5);
  }

  /** From one to nine pages, the left and right windows share a page, and the bar is
      the sorted union of the three windows. */
  lemma MergedFewPages(n: nat, pageNumber: int)
    requires 1 <= n <= 9
    ensures PaginateSectionsMerged(n, pageNumber)
            == Links(SortedSet(Left(n) + Middle(n, Index(pageNumber)) + Right(n)))
  {
    var l, r := Left(n), Right(n);
    var k := if n < 5 then n else 5;
    assert l[k - 1] == k && r[2 * k - n - 1] == k;
    assert k in Elems(l) && k in Elems(r);
  }

  /** With the left and right windows merged too, the pages of the bar strictly increase
      from start to end, so no page is shown twice; from ten pages on, the bar is that of
      `paginate_sections`. */
  lemma MergedShowsEveryPageOnce(n: nat, pageNumber: int)
    ensures Increasing(PagesOf(PaginateSectionsMerged(n, pageNumber)))
    ensures n >= 10 ==> PaginateSectionsMerged(n, pageNumber) == PaginateSections(n, pageNumber)
  {
    var l, m, r := Left(n), Middle(n, Index(pageNumber)), Right(n);
    if n >= 10 {
      MergedManyPages(n, pageNumber);
      ManyPagesIncrease(n, pageNumber);
    } else if n == 0 {
      assert l == [] && m == [] && r == [];
      PagesOfThree(l, m, r);
    } else {
      MergedFewPages(n, pageNumber);
      PagesOfLinks(SortedSet(l + m + r));
    }
  }

  /** The merged bar shows the same pages as `paginate_sections`, with at most two
      separators. */
  lemma MergedSamePages(n: nat, pageNumber: int)
    ensures forall x :: Page(x) in PaginateSectionsMerged(n, pageNumber) <==> Page(x) in PaginateSections(n, pageNumber)
    ensures multiset(PaginateSectionsMerged(n, pageNumber))[Gap] <= 2
  {
    var l, m, r := Left(n), Middle(n, Index(pageNumber)), Right(n);
    BarShowsWindows(n, pageNumber);
    if !(Elems(l) !! Elems(r)) {
      WindowsWithin(n, Index(pageNumber));
      OneRun(SortedSet(l + m + r));
    }
  }
}
