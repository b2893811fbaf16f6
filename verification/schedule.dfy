/** The weekly schedule checks of create_setup (routers/setup.py): playlist
    names must be unique within a request, and for every weekday the playlists
    flagged for that day, sorted by start time, must not have an end after the
    next one's start. Together with "start before end" these checks hold
    exactly when no two playlists that share a day overlap. */
module Schedule {
  import opened Outcomes
  import opened Schemas

  // ---------------------------------------------------------------------------
  // Playlists as minute intervals

  /** Start and end as minutes of the day. The request schema guarantees
      HH:MM values; 0 stands in for a value the schema would have refused. */
  function Start(p: PlaylistInput): nat
  {
    if IsClock(p.startTime) then Minutes(p.startTime) else 0
  }

  function End(p: PlaylistInput): nat
  {
    if IsClock(p.endTime) then Minutes(p.endTime) else 0
  }

  /** getattr(p, day) for the day-th weekday, monday = 0. */
  predicate RunsOn(p: PlaylistInput, day: nat)
  {
    day < DaysPerWeek && day < |p.days| && p.days[day]
  }

  predicate Distinct<T(==)>(s: seq<T>)
  {
    forall i, j :: 0 <= i < j < |s| ==> s[i] != s[j]
  }

  // ---------------------------------------------------------------------------
  // Unique playlist names: len(names) == len(set(names))

  function Names(ps: seq<PlaylistInput>): (ns: seq<string>)
    ensures |ns| == |ps| && forall i :: 0 <= i < |ps| ==> ns[i] == ps[i].name
  {
    seq(|ps|, i requires 0 <= i < |ps| => ps[i].name)
  }

  function Elements<T>(s: seq<T>): set<T>
  {
    set x | x in s
  }

  predicate NamesUnique(ps: seq<PlaylistInput>)
  {
    |Elements(Names(ps))| == |Names(ps)|
  }

  /** Comparing the size of the set of elements with the length of the list
      detects exactly the lists with a repeated element. */
  lemma {:induction false} SetSizeDetectsRepeats<T>(s: seq<T>)
    ensures |Elements(s)| <= |s|
    ensures |Elements(s)| == |s| <==> Distinct(s)
  {
    if s != [] {
      var t := s[1..];
      SetSizeDetectsRepeats(t);
      assert Elements(s) == {s[0]} + Elements(t) by {
        assert s == [s[0]] + t;
      }
      if s[0] in t {
        assert Elements(s) == Elements(t);
        var k :| 0 <= k < |t| && t[k] == s[0];
        assert s[0] == s[k + 1];
      } else {
        assert |Elements(s)| == |Elements(t)| + 1;
        if Distinct(t) {
          ConsDistinct(s[0], t);
          assert s == [s[0]] + t;
        }
        if Distinct(s) {
          SplitDistinct(s);
        }
      }
    }
  }

  /** The source's test accepts a request exactly when no two of its
      playlists share a name. */
  lemma NamesUniqueIffPairwiseDistinct(ps: seq<PlaylistInput>)
    ensures NamesUnique(ps) <==> forall i, j :: 0 <= i < j < |ps| ==> ps[i].name != ps[j].name
  {
    SetSizeDetectsRepeats(Names(ps));
  }

  // ---------------------------------------------------------------------------
  // One day's playlists, stably sorted by start time

  /** [p for p in playlists if getattr(p, day)] */
  function OnDay(ps: seq<PlaylistInput>, day: nat): (r: seq<PlaylistInput>)
    ensures forall p :: p in r <==> p in ps && RunsOn(p, day)
    decreases |ps|
  {
    if ps == [] then []
    else
      assert ps == [ps[0]] + ps[1..];
      if RunsOn(ps[0], day) then [ps[0]] + OnDay(ps[1..], day) else OnDay(ps[1..], day)
  }

  predicate SortedByStart(q: seq<PlaylistInput>)
  {
    forall i, j :: 0 <= i < j < |q| ==> Start(q[i]) <= Start(q[j])
  }

  /** Inserts x before the first element that does not start earlier, so
      playlists with equal starts keep their request order (list.sort is
      stable). */
  function InsertByStart(x: PlaylistInput, q: seq<PlaylistInput>): (r: seq<PlaylistInput>)
    ensures |r| == |q| + 1
    decreases |q|
  {
    if q == [] || Start(x) <= Start(q[0]) then [x] + q
    else
      assert q == [q[0]] + q[1..];
      [q[0]] + InsertByStart(x, q[1..])
  }

  /** day_playlists.sort(key=start_time) */
  function SortByStart(ps: seq<PlaylistInput>): (r: seq<PlaylistInput>)
    ensures |r| == |ps|
    decreases |ps|
  {
    if ps == [] then [] else InsertByStart(ps[0], SortByStart(ps[1..]))
  }

  /** Inserting adds exactly the one element. */
  lemma {:induction false} InsertPermutes(x: PlaylistInput, q: seq<PlaylistInput>)
    ensures multiset(InsertByStart(x, q)) == multiset(q) + multiset{x}
    decreases |q|
  {
    if q != [] && Start(x) > Start(q[0]) {
      InsertPermutes(x, q[1..]);
      assert q == [q[0]] + q[1..];
    }
  }

  /** The sort is a permutation of its input. */
  lemma {:induction false} SortPermutes(ps: seq<PlaylistInput>)
    ensures multiset(SortByStart(ps)) == multiset(ps)
    decreases |ps|
  {
    if ps != [] {
      SortPermutes(ps[1..]);
      InsertPermutes(ps[0], SortByStart(ps[1..]));
      assert ps == [ps[0]] + ps[1..];
    }
  }

  lemma {:induction false} InsertKeepsOrder(x: PlaylistInput, q: seq<PlaylistInput>)
    requires SortedByStart(q)
    ensures SortedByStart(InsertByStart(x, q))
    decreases |q|
  {
    if q != [] && Start(x) > Start(q[0]) {
      var rest := InsertByStart(x, q[1..]);
      InsertKeepsOrder(x, q[1..]);
      RestStartsLater(x, q);
      var r := [q[0]] + rest;
      forall i, j | 0 <= i < j < |r|
        ensures Start(r[i]) <= Start(r[j])
      {
        assert r[j] == rest[j - 1];
        if i > 0 {
          assert r[i] == rest[i - 1];
        }
      }
    }
  }

  lemma RestStartsLater(x: PlaylistInput, q: seq<PlaylistInput>)
    requires SortedByStart(q) && q != [] && Start(x) > Start(q[0])
    ensures forall k :: 0 <= k < |InsertByStart(x, q[1..])| ==> Start(q[0]) <= Start(InsertByStart(x, q[1..])[k])
  {
    var rest := InsertByStart(x, q[1..]);
    InsertPermutes(x, q[1..]);
    forall k | 0 <= k < |rest|
      ensures Start(q[0]) <= Start(rest[k])
    {
      assert rest[k] in multiset(rest);
      if rest[k] != x {
        assert rest[k] in multiset(q[1..]);
        var m :| 0 <= m < |q[1..]| && q[1..][m] == rest[k];
        assert q[m + 1] == rest[k];
      }
    }
  }

  lemma {:induction false} SortIsSorted(ps: seq<PlaylistInput>)
    ensures SortedByStart(SortByStart(ps))
    decreases |ps|
  {
    if ps != [] {
      SortIsSorted(ps[1..]);
      InsertKeepsOrder(ps[0], SortByStart(ps[1..]));
    }
  }

  lemma {:induction false} ConsDistinct<T>(x: T, t: seq<T>)
    requires Distinct(t) && x !in t
    ensures Distinct([x] + t)
  {
    var s := [x] + t;
    forall i, j | 0 <= i < j < |s|
      ensures s[i] != s[j]
    {
      assert s[j] == t[j - 1];
      if i > 0 {
        assert s[i] == t[i - 1];
      }
    }
  }

  lemma SplitDistinct<T>(s: seq<T>)
    requires Distinct(s) && s != []
    ensures Distinct(s[1..]) && s[0] !in s[1..]
  {
    var t := s[1..];
    forall i, j | 0 <= i < j < |t|
      ensures t[i] != t[j]
    {
      assert t[i] == s[i + 1] && t[j] == s[j + 1];
    }
    forall m | 0 <= m < |t|
      ensures t[m] != s[0]
    {
      assert t[m] == s[m + 1];
    }
  }

  // ---------------------------------------------------------------------------
  // The per-day comparison loop

  /** The playlists of one day in the order the check visits them. */
  function DaySchedule(ps: seq<PlaylistInput>, day: nat): seq<PlaylistInput>
  {
    SortByStart(OnDay(ps, day))
  }

  /** The playlist at i ends at or before the next one starts (touching is
      allowed: the source's test is a strict `>`). */
  predicate NoClashAt(q: seq<PlaylistInput>, i: int)
    requires 0 <= i < |q| - 1
  {
    End(q[i]) <= Start(q[i + 1])
  }

  predicate AdjacentOk(q: seq<PlaylistInput>)
  {
    forall i :: 0 <= i < |q| - 1 ==> NoClashAt(q, i)
  }

  /** for i in range(len(day_playlists) - 1): the first i, from `from` on,
      with end_i > start_{i+1}. */
  function FirstClash(q: seq<PlaylistInput>, from: nat): (r: Option<nat>)
    ensures r.None? <==> forall i :: from <= i < |q| - 1 ==> NoClashAt(q, i)
    ensures r.Some? ==> from <= r.value && r.value + 1 < |q| && !NoClashAt(q, r.value)
    ensures r.Some? ==> forall i :: from <= i < r.value ==> NoClashAt(q, i)
    decreases |q| - from
  {
    if from + 1 >= |q| then None
    else if !NoClashAt(q, from) then Some(from)
    else FirstClash(q, from + 1)
  }

  /** The scan finds no clash exactly when no neighbours clash. */
  lemma FirstClashDecides(q: seq<PlaylistInput>)
    ensures FirstClash(q, 0).None? <==> AdjacentOk(q)
  {
  }

  /** The day's playlists, in sorted order, have no clashing neighbours. */
  predicate DayOk(ps: seq<PlaylistInput>, day: nat)
  {
    AdjacentOk(DaySchedule(ps, day))
  }

  /** Every day from `day` to sunday is free of clashes. */
  predicate DaysOk(ps: seq<PlaylistInput>, day: nat)
    decreases DaysPerWeek - day
  {
    day >= DaysPerWeek || (DayOk(ps, day) && DaysOk(ps, day + 1))
  }

  lemma {:induction false} DaysOkEveryDay(ps: seq<PlaylistInput>, day: nat)
    ensures DaysOk(ps, day) <==> forall d :: day <= d < DaysPerWeek ==> DayOk(ps, d)
    decreases DaysPerWeek - day
  {
    if day < DaysPerWeek {
      DaysOkEveryDay(ps, day + 1);
      assert DaysOk(ps, day) == (DayOk(ps, day) && DaysOk(ps, day + 1));
      assert (forall d :: day <= d < DaysPerWeek ==> DayOk(ps, d)) ==
             (DayOk(ps, day) && forall d :: day + 1 <= d < DaysPerWeek ==> DayOk(ps, d));
    }
  }

  /** for day in days: ... raise 400 "Playlists 'a' and 'b' overlap on day"
      for the first clash, monday first. */
  function CheckDays(ps: seq<PlaylistInput>, day: nat): (c: Check)
    requires day <= DaysPerWeek
    ensures c.Pass? <==> DaysOk(ps, day)
    ensures c.Fail? ==> c.reason.PlaylistsOverlap? && c.reason.day in DayNames
    decreases DaysPerWeek - day
  {
    if day == DaysPerWeek then Pass
    else
      var q := DaySchedule(ps, day);
      var clash := FirstClash(q, 0);
      FirstClashDecides(q);
      if clash.Some? then
        Fail(PlaylistsOverlap(q[clash.value].name, q[clash.value + 1].name, DayNames[day]))
      else
        CheckDays(ps, day + 1)
  }

  // ---------------------------------------------------------------------------
  // What the checks mean

  predicate StartsBeforeEnds(ps: seq<PlaylistInput>)
  {
    forall p | p in ps :: Start(p) < End(p)
  }

  /** No two different playlists flagged for the same day have overlapping
      [start, end) intervals. */
  predicate NoSameDayOverlap(ps: seq<PlaylistInput>)
  {
    forall i, j, d :: 0 <= i < |ps| && 0 <= j < |ps| && 0 <= d < DaysPerWeek && i != j && RunsOn(ps[i], d) && RunsOn(ps[j], d) ==>
      End(ps[i]) <= Start(ps[j]) || End(ps[j]) <= Start(ps[i])
  }

  /** Along a start-sorted day whose neighbours do not clash, every earlier
      playlist ends before every later one starts. */
  lemma {:induction false} Chain(q: seq<PlaylistInput>, i: nat, j: nat)
    requires AdjacentOk(q) && StartsBeforeEnds(q)
    requires i < j < |q|
    ensures End(q[i]) <= Start(q[j])
    decreases j - i
  {
    assert NoClashAt(q, j - 1);
    if j > i + 1 {
      Chain(q, i, j - 1);
      assert q[j - 1] in q;
    }
  }

  lemma MemberOfDay(ps: seq<PlaylistInput>, d: nat, x: PlaylistInput)
    ensures x in DaySchedule(ps, d) <==> x in ps && RunsOn(x, d)
  {
    var day := OnDay(ps, d);
    SortPermutes(day);
    assert x in day <==> x in multiset(day);
    assert x in DaySchedule(ps, d) <==> x in multiset(DaySchedule(ps, d));
  }

  lemma DayStartsBeforeEnds(ps: seq<PlaylistInput>, d: nat)
    requires StartsBeforeEnds(ps)
    ensures StartsBeforeEnds(DaySchedule(ps, d))
  {
    forall x | x in DaySchedule(ps, d)
      ensures Start(x) < End(x)
    {
      MemberOfDay(ps, d, x);
    }
  }

  /** The day's list keeps every copy of a playlist flagged for that day. */
  lemma {:induction false} OnDayCount(ps: seq<PlaylistInput>, d: nat, x: PlaylistInput)
    requires RunsOn(x, d)
    ensures multiset(OnDay(ps, d))[x] == multiset(ps)[x]
    decreases |ps|
  {
    if ps != [] {
      OnDayCount(ps[1..], d, x);
      assert ps == [ps[0]] + ps[1..];
    }
  }

  /** An element found at two positions occurs at least twice. */
  lemma RepeatCount<T>(s: seq<T>, i: nat, j: nat)
    requires i < j < |s| && s[i] == s[j]
    ensures multiset(s)[s[i]] >= 2
  {
    assert s == s[..j] + s[j..];
    assert s[..j][i] == s[i];
    assert s[j..][0] == s[i];
  }

  /** An element that occurs at least twice sits at two positions. */
  lemma {:induction false} TwoPositions<T>(q: seq<T>, x: T)
    requires multiset(q)[x] >= 2
    ensures exists a, b :: 0 <= a < b < |q| && q[a] == x && q[b] == x
    decreases |q|
  {
    assert q == [q[0]] + q[1..];
    if q[0] == x {
      assert x in multiset(q[1..]);
      var b :| 0 <= b < |q[1..]| && q[1..][b] == x;
      assert q[b + 1] == x;
    } else {
      TwoPositions(q[1..], x);
      var a, b :| 0 <= a < b < |q[1..]| && q[1..][a] == x && q[1..][b] == x;
      assert q[a + 1] == x && q[b + 1] == x;
    }
  }

  /** Two positions of the request holding the same playlist flagged for
      day d give two positions of that day's sorted list holding it. */
  lemma RepeatOnDay(ps: seq<PlaylistInput>, d: nat, i: nat, j: nat)
    requires i < j < |ps| && ps[i] == ps[j] && RunsOn(ps[i], d)
    ensures exists a, b :: 0 <= a < b < |DaySchedule(ps, d)| && DaySchedule(ps, d)[a] == ps[i] && DaySchedule(ps, d)[b] == ps[i]
  {
    RepeatCount(ps, i, j);
    OnDayCount(ps, d, ps[i]);
    SortPermutes(OnDay(ps, d));
    TwoPositions(DaySchedule(ps, d), ps[i]);
  }

  /** Passing the per-day checks implies that no two same-day playlists of a
      list overlap, given start < end for each. The list may hold the same
      playlist twice: flagged for a shared day, the copies would be sorted
      next to each other and clash, so a passing list has no such pair. */
  lemma ChecksPassImpliesNoOverlap(ps: seq<PlaylistInput>)
    requires StartsBeforeEnds(ps)
    requires CheckDays(ps, 0).Pass?
    ensures NoSameDayOverlap(ps)
  {
    DaysOkEveryDay(ps, 0);
    forall i, j, d | 0 <= i < |ps| && 0 <= j < |ps| && 0 <= d < DaysPerWeek && i != j && RunsOn(ps[i], d) && RunsOn(ps[j], d)
      ensures End(ps[i]) <= Start(ps[j]) || End(ps[j]) <= Start(ps[i])
    {
      PairDoesNotOverlap(ps, i, j, d);
    }
  }

  lemma PairDoesNotOverlap(ps: seq<PlaylistInput>, i: nat, j: nat, d: nat)
    requires StartsBeforeEnds(ps)
    requires i < |ps| && j < |ps| && i != j && RunsOn(ps[i], d) && RunsOn(ps[j], d)
    requires DayOk(ps, d)
    ensures End(ps[i]) <= Start(ps[j]) || End(ps[j]) <= Start(ps[i])
  {
    var q := DaySchedule(ps, d);
    DayStartsBeforeEnds(ps, d);
    if ps[i] == ps[j] {
      var x := ps[i];
      assert Start(x) < End(x);
      if i < j {
        RepeatOnDay(ps, d, i, j);
      } else {
        RepeatOnDay(ps, d, j, i);
      }
      var a, b :| 0 <= a < b < |q| && q[a] == x && q[b] == x;
      Chain(q, a, b);
      assert false;
    } else {
      MemberOfDay(ps, d, ps[i]);
      MemberOfDay(ps, d, ps[j]);
      var a :| 0 <= a < |q| && q[a] == ps[i];
      var b :| 0 <= b < |q| && q[b] == ps[j];
      if a < b {
        Chain(q, a, b);
      } else {
        Chain(q, b, a);
      }
    }
  }

  /** Conversely, a list without same-day overlaps passes the checks. */
  lemma NoOverlapImpliesChecksPass(ps: seq<PlaylistInput>)
    requires StartsBeforeEnds(ps)
    requires NoSameDayOverlap(ps)
    ensures CheckDays(ps, 0).Pass?
  {
    forall d | 0 <= d < DaysPerWeek
      ensures DayOk(ps, d)
    {
      NoOverlapDay(ps, d);
    }
    DaysOkEveryDay(ps, 0);
  }

  lemma NoOverlapDay(ps: seq<PlaylistInput>, d: nat)
    requires StartsBeforeEnds(ps)
    requires NoSameDayOverlap(ps)
    requires d < DaysPerWeek
    ensures AdjacentOk(DaySchedule(ps, d))
  {
    var q := DaySchedule(ps, d);
    SortIsSorted(OnDay(ps, d));
    DayHasNoRepeats(ps, d);
    forall k | 0 <= k < |q| - 1
      ensures NoClashAt(q, k)
    {
      NeighboursDoNotClash(ps, d, q, k);
    }
  }

  /** Without same-day overlaps a day's list holds each playlist once: two
      copies of a playlist flagged for the day would overlap each other. */
  lemma DayHasNoRepeats(ps: seq<PlaylistInput>, d: nat)
    requires StartsBeforeEnds(ps) && NoSameDayOverlap(ps)
    requires d < DaysPerWeek
    ensures Distinct(DaySchedule(ps, d))
  {
    var q := DaySchedule(ps, d);
    forall a, b | 0 <= a < b < |q|
      ensures q[a] != q[b]
    {
      if q[a] == q[b] {
        var x := q[a];
        MemberOfDay(ps, d, x);
        assert Start(x) < End(x);
        RepeatCount(q, a, b);
        SortPermutes(OnDay(ps, d));
        OnDayCount(ps, d, x);
        TwoPositions(ps, x);
        assert false;
      }
    }
  }

  lemma NeighboursDoNotClash(ps: seq<PlaylistInput>, d: nat, q: seq<PlaylistInput>, k: nat)
    requires StartsBeforeEnds(ps) && NoSameDayOverlap(ps)
    requires d < DaysPerWeek && q == DaySchedule(ps, d)
    requires SortedByStart(q) && Distinct(q)
    requires k + 1 < |q|
    ensures End(q[k]) <= Start(q[k + 1])
  {
    var x, y := q[k], q[k + 1];
    MemberOfDay(ps, d, x);
    MemberOfDay(ps, d, y);
    var a :| 0 <= a < |ps| && ps[a] == x;
    var b :| 0 <= b < |ps| && ps[b] == y;
    assert x != y;
    assert Start(x) <= Start(y);
    assert Start(x) < End(x) && Start(y) < End(y);
    assert End(x) <= Start(y) || End(y) <= Start(x);
  }

  /** The schedule check, stated both ways: for playlists that all start
      before they end, the per-day checks pass exactly when no two
      same-day playlists overlap. */
  lemma ChecksPassIffNoOverlap(ps: seq<PlaylistInput>)
    requires StartsBeforeEnds(ps)
    ensures CheckDays(ps, 0).Pass? <==> NoSameDayOverlap(ps)
  {
    if CheckDays(ps, 0).Pass? {
      ChecksPassImpliesNoOverlap(ps);
    }
    if NoSameDayOverlap(ps) {
      NoOverlapImpliesChecksPass(ps);
    }
  }
}
