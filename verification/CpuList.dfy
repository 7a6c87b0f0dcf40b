/**
 The list of CPU ranges of the cyclic deadline test: ranges are merged into it one at a time,
 and it is counted and complemented.
 */
module CpuList {
  import opened Sequences

  datatype Range = Range(start: int, end: int)

  predicate InRange(r: Range, cpu: int) { r.start <= cpu <= r.end }

  predicate In(list: seq<Range>, cpu: int) {
    exists i :: 0 <= i < |list| && InRange(list[i], cpu)
  }

  /** Ascending, with at least one CPU missing between neighbours. */
  predicate Sorted(list: seq<Range>) {
    && (forall i :: 0 <= i < |list| ==> list[i].start <= list[i].end)
    && forall i, j :: 0 <= i < j < |list| ==> list[i].end + 1 < list[j].start
  }

  // ---------------------------------------------------------------- adding a range

  function Add(list: seq<Range>, a: int, b: int): seq<Range> {
    if list == [] then [Range(a, b)]
    else if list[0].end + 1 < a then [list[0]] + Add(list[1..], a, b)
    else AddHere(list[0], list[1..], a, b)
  }

  /** The new range does not lie behind the range `r`. */
  function AddHere(r: Range, rest: seq<Range>, a: int, b: int): seq<Range> {
    if b > r.start && a <= r.end + 1 then Absorb(Range(if a < r.start then a else r.start, r.end), rest, b)
    else if b >= r.start - 1 then [Range(a, r.end)] + rest
    else [r, Range(a, b)] + rest
  }

  /** The ranges that the grown range reaches become part of it. */
  function Absorb(r: Range, rest: seq<Range>, b: int): seq<Range>
    decreases |rest|
  {
    if rest != [] && rest[0].start <= b + 1 then Absorb(Range(r.start, rest[0].end), rest[1..], b)
    else [Range(r.start, if r.end < b then b else r.end)] + rest
  }

  lemma AbsorbAt(list: seq<Range>, i: nat, b: int)
    requires i < |list|
    ensures i + 1 < |list| && list[i + 1].start <= b + 1 ==>
              var list' := list[..i] + [Range(list[i].start, list[i + 1].end)] + list[i + 2..];
              && list'[..i] == list[..i] && list'[i] == Range(list[i].start, list[i + 1].end) && list'[i + 1..] == list[i + 2..]
              && Absorb(list[i], list[i + 1..], b) == Absorb(list'[i], list'[i + 1..], b)
  {
    if i + 1 < |list| && list[i + 1].start <= b + 1 {
      var list' := list[..i] + [Range(list[i].start, list[i + 1].end)] + list[i + 2..];
      assert list[i + 1..][1..] == list[i + 2..] == list'[i + 1..];
    }
  }

  /** The absorbing loop, on the node at i of the list. */
  method AbsorbLoop(list: seq<Range>, i: nat, b: int) returns (list': seq<Range>)
    requires i < |list|
    ensures list' == list[..i] + Absorb(list[i], list[i + 1..], b)
  {
    list' := list;
    while i + 1 < |list'| && list'[i + 1].start <= b + 1
      invariant i < |list'| && list'[..i] == list[..i]
      invariant Absorb(list'[i], list'[i + 1..], b) == Absorb(list[i], list[i + 1..], b)
      decreases |list'|
    {
      AbsorbAt(list', i, b);
      list' := list'[..i] + [Range(list'[i].start, list'[i + 1].end)] + list'[i + 2..];
    }
    ghost var before := list';
    if list'[i].end < b {
      list' := list'[i := Range(list'[i].start, b)];
    }
    assert list' == before[..i] + Absorb(before[i], before[i + 1..], b);
  }

  lemma {:induction false} AddSkips(list: seq<Range>, i: nat, a: int, b: int)
    requires i <= |list| && forall k :: 0 <= k < i ==> list[k].end + 1 < a
    ensures Add(list, a, b) == list[..i] + Add(list[i..], a, b)
  {
    if i == 0 {
      assert list[0..] == list;
    } else {
      var rest := list[1..];
      assert forall k :: 0 <= k < i - 1 ==> rest[k] == list[k + 1];
      AddSkips(rest, i - 1, a, b);
      assert rest[i - 1..] == list[i..] && list[..i] == [list[0]] + rest[..i - 1];
      Regroup([list[0]], rest[..i - 1], Add(list[i..], a, b));
    }
  }

  lemma AddAt(list: seq<Range>, i: nat, a: int, b: int)
    requires i < |list| && (forall k :: 0 <= k < i ==> list[k].end + 1 < a) && list[i].end + 1 >= a
    ensures Add(list, a, b) == list[..i] + AddHere(list[i], list[i + 1..], a, b)
  {
    AddSkips(list, i, a, b);
    assert list[i..][0] == list[i] && list[i..][1..] == list[i + 1..];
  }

  /** What the assignments to one node and the linking of a new one make of the list. */
  lemma NodeEdits(list: seq<Range>, i: nat, r: Range)
    requires i < |list|
    ensures list[i := r][..i] == list[..i] && list[i := r][i + 1..] == list[i + 1..]
    ensures list[i := r] == list[..i] + ([r] + list[i + 1..])
    ensures list[..i + 1] + [r] + list[i + 1..] == list[..i] + ([list[i], r] + list[i + 1..])
  {
  }

  /** `add_cpus` on a list of nodes. */
  method AddCpus(list: seq<Range>, a: int, b: int) returns (list': seq<Range>)
    ensures list' == Add(list, a, b)
  {
    var i := 0;
    while i < |list| && list[i].end + 1 < a
      invariant 0 <= i <= |list| && forall k :: 0 <= k < i ==> list[k].end + 1 < a
    {
      i := i + 1;
    }
    if i == |list| {
      AddSkips(list, i, a, b);
      return list + [Range(a, b)];
    }
    AddAt(list, i, a, b);
    if b > list[i].start && a <= list[i].end + 1 {
      list' := list;
      if a < list[i].start {
        NodeEdits(list, i, Range(a, list[i].end));
        list' := list[i := Range(a, list[i].end)];
      }
      list' := AbsorbLoop(list', i, b);
      return;
    }
    if b >= list[i].start - 1 {
      NodeEdits(list, i, Range(a, list[i].end));
      return list[i := Range(a, list[i].end)];
    }
    NodeEdits(list, i, Range(a, b));
    return list[..i + 1] + [Range(a, b)] + list[i + 1..];
  }

  // ---------------------------------------------------------------- what adding means

  predicate Touches(r: Range, a: int, b: int) { a <= r.end + 1 && r.start <= b + 1 }

  /** The new range reaches some range of the list, or lies behind all of them. */
  predicate Accepts(list: seq<Range>, a: int, b: int) {
    (exists i :: 0 <= i < |list| && Touches(list[i], a, b)) || (forall i :: 0 <= i < |list| ==> list[i].end + 1 < a)
  }

  lemma InCons(r: Range, rest: seq<Range>, cpu: int)
    ensures In([r] + rest, cpu) <==> InRange(r, cpu) || In(rest, cpu)
  {
    var list := [r] + rest;
    if i :| 0 <= i < |rest| && InRange(rest[i], cpu) {
      assert InRange(list[i + 1], cpu);
    }
    if InRange(r, cpu) {
      assert InRange(list[0], cpu);
    }
    if i :| 0 <= i < |list| && InRange(list[i], cpu) {
      assert i > 0 ==> InRange(rest[i - 1], cpu);
    }
  }

  lemma SortedTail(list: seq<Range>)
    requires list != []
    ensures Sorted(list) <==> list[0].start <= list[0].end && Sorted(list[1..])
                              && (|list| > 1 ==> list[0].end + 1 < list[1].start)
  {
    var rest := list[1..];
    assert forall i :: 0 <= i < |rest| ==> rest[i] == list[i + 1];
    if list[0].start <= list[0].end && Sorted(rest) && (|list| > 1 ==> list[0].end + 1 < list[1].start) {
      forall i, j | 0 <= i < j < |list| ensures list[i].end + 1 < list[j].start {
        assert list[j] == rest[j - 1];
        if i > 0 {
          assert list[i] == rest[i - 1];
        } else if j > 1 {
          assert rest[0].end + 1 < rest[j - 1].start && rest[0].start <= rest[0].end;
        }
      }
    }
    if Sorted(list) {
      forall i, j | 0 <= i < j < |rest| ensures rest[i].end + 1 < rest[j].start {
        assert list[i + 1].end + 1 < list[j + 1].start;
      }
    }
  }

  /** The range and the list behind it are in order. */
  predicate Ahead(r: Range, rest: seq<Range>) {
    r.start <= r.end && Sorted(rest) && (rest != [] ==> r.end + 1 < rest[0].start)
  }

  lemma SortedCons(r: Range, rest: seq<Range>)
    ensures Sorted([r] + rest) <==> Ahead(r, rest)
  {
    SortedTail([r] + rest);
    assert ([r] + rest)[1..] == rest;
  }

  lemma SortedUncons(list: seq<Range>)
    requires list != []
    ensures Sorted(list) <==> Ahead(list[0], list[1..])
  {
    SortedCons(list[0], list[1..]);
    assert [list[0]] + list[1..] == list;
  }

  lemma {:induction false} AbsorbSorted(r: Range, rest: seq<Range>, b: int)
    requires Ahead(r, rest)
    ensures var list := Absorb(r, rest, b); list != [] && list[0].start == r.start && Sorted(list)
    decreases |rest|
  {
    if rest != [] && rest[0].start <= b + 1 {
      SortedUncons(rest);
      AbsorbSorted(Range(r.start, rest[0].end), rest[1..], b);
    } else {
      SortedCons(Range(r.start, if r.end < b then b else r.end), rest);
    }
  }

  lemma {:induction false} AbsorbUnion(r: Range, rest: seq<Range>, b: int, cpu: int)
    requires Ahead(r, rest)
    ensures In(Absorb(r, rest, b), cpu) <==> InRange(r, cpu) || In(rest, cpu) || r.start <= cpu <= b
    decreases |rest|
  {
    if rest != [] && rest[0].start <= b + 1 {
      SortedUncons(rest);
      AbsorbUnion(Range(r.start, rest[0].end), rest[1..], b, cpu);
      InCons(rest[0], rest[1..], cpu);
      assert [rest[0]] + rest[1..] == rest;
    } else {
      InCons(Range(r.start, if r.end < b then b else r.end), rest, cpu);
    }
  }

  lemma HereSorted(r: Range, rest: seq<Range>, a: int, b: int)
    requires Ahead(r, rest) && a <= b && a <= r.end + 1
    ensures var list := AddHere(r, rest, a, b);
            && (Sorted(list) <==> r.start <= b + 1)
            && list != [] && (list[0].start == a || list[0].start == r.start)
  {
    if b > r.start {
      AbsorbSorted(Range(if a < r.start then a else r.start, r.end), rest, b);
    } else if b >= r.start - 1 {
      SortedCons(Range(a, r.end), rest);
    } else {
      var list := [r, Range(a, b)] + rest;
      assert list[0].end + 1 >= list[1].start;
    }
  }

  lemma HereUnion(r: Range, rest: seq<Range>, a: int, b: int, cpu: int)
    requires Ahead(r, rest) && a <= b && a <= r.end + 1
    ensures In(AddHere(r, rest, a, b), cpu) <==> InRange(r, cpu) || In(rest, cpu) || a <= cpu <= b
  {
    if b > r.start {
      AbsorbUnion(Range(if a < r.start then a else r.start, r.end), rest, b, cpu);
    } else if b >= r.start - 1 {
      InCons(Range(a, r.end), rest, cpu);
    } else {
      assert [r, Range(a, b)] + rest == [r] + ([Range(a, b)] + rest);
      InCons(r, [Range(a, b)] + rest, cpu);
      InCons(Range(a, b), rest, cpu);
    }
  }

  lemma AcceptsHere(list: seq<Range>, a: int, b: int)
    requires Sorted(list) && list != [] && a <= b
    ensures a <= list[0].end + 1 ==> (Accepts(list, a, b) <==> list[0].start <= b + 1)
    ensures list[0].end + 1 < a ==> (Accepts(list, a, b) <==> Accepts(list[1..], a, b))
  {
    var rest := list[1..];
    assert forall i :: 0 <= i < |rest| ==> rest[i] == list[i + 1];
    if a <= list[0].end + 1 {
      if list[0].start <= b + 1 {
        assert Touches(list[0], a, b);
      }
    } else {
      if i :| 0 <= i < |list| && Touches(list[i], a, b) {
        assert Touches(rest[i - 1], a, b);
      }
      if i :| 0 <= i < |rest| && Touches(rest[i], a, b) {
        assert Touches(list[i + 1], a, b);
      }
      if forall i :: 0 <= i < |rest| ==> rest[i].end + 1 < a {
        assert forall i :: 0 < i < |list| ==> list[i] == rest[i - 1];
      }
    }
  }

  /** Adding a range keeps the list in order exactly when the range reaches a range of the
      list or lies behind all of them; a range that falls into a gap is linked too late. */
  lemma {:induction false} AddSorted(list: seq<Range>, a: int, b: int)
    requires Sorted(list) && a <= b
    ensures Sorted(Add(list, a, b)) <==> Accepts(list, a, b)
    ensures var list' := Add(list, a, b);
            list' != [] && (list'[0].start == a || (list != [] && list'[0].start == list[0].start))
  {
    if list != [] {
      SortedUncons(list);
      AcceptsHere(list, a, b);
      if list[0].end + 1 < a {
        AddSorted(list[1..], a, b);
        SortedCons(list[0], Add(list[1..], a, b));
      } else {
        HereSorted(list[0], list[1..], a, b);
      }
    }
  }

  /** Adding a range to a list in order adds exactly its CPUs, wherever it falls. */
  lemma {:induction false} AddUnion(list: seq<Range>, a: int, b: int, cpu: int)
    requires Sorted(list) && a <= b
    ensures In(Add(list, a, b), cpu) <==> In(list, cpu) || a <= cpu <= b
  {
    if list == [] {
      InCons(Range(a, b), [], cpu);
      assert [Range(a, b)] + [] == [Range(a, b)];
    } else {
      SortedUncons(list);
      InCons(list[0], list[1..], cpu);
      assert [list[0]] + list[1..] == list;
      if list[0].end + 1 < a {
        AddUnion(list[1..], a, b, cpu);
        InCons(list[0], Add(list[1..], a, b), cpu);
      } else {
        HereUnion(list[0], list[1..], a, b, cpu);
      }
    }
  }

  /** A CPU before the only one of the list ends up behind it, and is not even found when it is
      added again: the count is then wrong. */
  lemma GapCounterexample()
    ensures var once := Add([Range(5, 5)], 1, 1);
            && once == [Range(5, 5), Range(1, 1)] && !Sorted(once)
            && Add(once, 1, 1) == [Range(5, 5), Range(1, 1), Range(1, 1)] && Count(Add(once, 1, 1)) == 3
  {
    var once := [Range(5, 5), Range(1, 1)];
    assert once[0].end + 1 >= once[1].start;
    var twice := [Range(5, 5), Range(1, 1), Range(1, 1)];
    assert twice[1..] == [Range(1, 1), Range(1, 1)] && twice[1..][1..] == [Range(1, 1)];
  }

  // ---------------------------------------------------------------- a whole input

  predicate Ascending(ranges: seq<Range>) {
    && (forall i :: 0 <= i < |ranges| ==> ranges[i].start <= ranges[i].end)
    && forall i, j :: 0 <= i < j < |ranges| ==> ranges[i].start <= ranges[j].start
  }

  function AddAll(ranges: seq<Range>): seq<Range> {
    if ranges == [] then []
    else
      var n := |ranges| - 1;
      Add(AddAll(ranges[..n]), ranges[n].start, ranges[n].end)
  }

  /** Starts stay at or below a bound that the new start does not undercut. */
  lemma {:induction false} StartsBelow(list: seq<Range>, a: int, b: int, i: nat)
    requires Sorted(list) && a <= b && (forall k :: 0 <= k < |list| ==> list[k].start <= a)
    requires i < |Add(list, a, b)|
    ensures Add(list, a, b)[i].start <= a
    decreases |list|
  {
    if list != [] {
      SortedUncons(list);
      if list[0].end + 1 < a {
        if i > 0 {
          StartsBelow(list[1..], a, b, i - 1);
        }
      }
    }
  }

  lemma AcceptsAscending(list: seq<Range>, a: int, b: int)
    requires a <= b && (forall k :: 0 <= k < |list| ==> list[k].start <= a)
    ensures Accepts(list, a, b)
  {
    if i :| 0 <= i < |list| && list[i].end + 1 >= a {
      assert Touches(list[i], a, b);
    }
  }

  lemma {:induction false} AddAllSorted(ranges: seq<Range>)
    requires Ascending(ranges)
    ensures Sorted(AddAll(ranges))
    ensures ranges != [] ==> forall k :: 0 <= k < |AddAll(ranges)| ==> AddAll(ranges)[k].start <= ranges[|ranges| - 1].start
  {
    if ranges != [] {
      var n := |ranges| - 1;
      var before, r := AddAll(ranges[..n]), ranges[n];
      AddAllSorted(ranges[..n]);
      assert n > 0 ==> ranges[n - 1].start <= r.start;
      AcceptsAscending(before, r.start, r.end);
      AddSorted(before, r.start, r.end);
      forall k | 0 <= k < |AddAll(ranges)| ensures AddAll(ranges)[k].start <= r.start {
        StartsBelow(before, r.start, r.end, k);
      }
    }
  }

  /** Ranges with ascending starts: the merged list is in order and denotes their union. */
  lemma {:induction false} AddAllMeaning(ranges: seq<Range>, cpu: int)
    requires Ascending(ranges)
    ensures Sorted(AddAll(ranges)) && (In(AddAll(ranges), cpu) <==> In(ranges, cpu))
  {
    AddAllSorted(ranges);
    if ranges != [] {
      var n := |ranges| - 1;
      var before, r := AddAll(ranges[..n]), ranges[n];
      AddAllMeaning(ranges[..n], cpu);
      AddUnion(before, r.start, r.end, cpu);
      InSnoc(ranges[..n], r, cpu);
      assert ranges[..n] + [r] == ranges;
    }
  }

  lemma InSnoc(list: seq<Range>, r: Range, cpu: int)
    ensures In(list + [r], cpu) <==> In(list, cpu) || InRange(r, cpu)
  {
    var more := list + [r];
    if i :| 0 <= i < |list| && InRange(list[i], cpu) {
      assert InRange(more[i], cpu);
    }
    if InRange(r, cpu) {
      assert InRange(more[|list|], cpu);
    }
    if i :| 0 <= i < |more| && InRange(more[i], cpu) {
      assert i < |list| ==> InRange(list[i], cpu);
    }
  }

  // ---------------------------------------------------------------- counting

  function Count(list: seq<Range>): int {
    if list == [] then 0 else list[0].end - list[0].start + 1 + Count(list[1..])
  }

  /** The CPUs from a to b. */
  function Interval(a: int, b: int): set<int> {
    set c | a <= c <= b && InRange(Range(a, b), c)
  }

  function Cpus(list: seq<Range>): set<int> {
    if list == [] then {} else Interval(list[0].start, list[0].end) + Cpus(list[1..])
  }

  lemma {:induction false} IntervalSize(a: int, b: int)
    requires a <= b + 1
    ensures |Interval(a, b)| == b - a + 1
    decreases b - a
  {
    if a <= b {
      IntervalSize(a, b - 1);
      assert Interval(a, b) == Interval(a, b - 1) + {b};
    }
  }

  lemma {:induction false} CpusAreIn(list: seq<Range>, cpu: int)
    ensures cpu in Cpus(list) <==> In(list, cpu)
  {
    if list != [] {
      CpusAreIn(list[1..], cpu);
      InCons(list[0], list[1..], cpu);
      assert [list[0]] + list[1..] == list;
    }
  }

  /** The count of a list in order is the number of its CPUs. */
  lemma {:induction false} CountIsCardinality(list: seq<Range>)
    requires Sorted(list)
    ensures Count(list) == |Cpus(list)|
  {
    if list != [] {
      var rest := list[1..];
      SortedUncons(list);
      CountIsCardinality(rest);
      IntervalSize(list[0].start, list[0].end);
      forall c | c in Cpus(rest) ensures c !in Interval(list[0].start, list[0].end) {
        CpusAreIn(rest, c);
        var i :| 0 <= i < |rest| && InRange(rest[i], c);
        assert list[i + 1] == rest[i];
      }
      assert Interval(list[0].start, list[0].end) !! Cpus(rest);
    }
  }

  /** `count_cpus`: the sum of the range sizes, or -1 if some range leaves the machine. */
  method CountCpus(list: seq<Range>, cpuCount: int) returns (count: int)
    ensures count == if exists i :: 0 <= i < |list| && list[i].end >= cpuCount then -1 else Count(list)
  {
    var cpus, fail, i := 0, false, 0;
    while i < |list|
      invariant 0 <= i <= |list| && cpus + Count(list[i..]) == Count(list)
      invariant fail <==> exists k :: 0 <= k < i && list[k].end >= cpuCount
    {
      assert list[i..][1..] == list[i + 1..];
      cpus := cpus + (list[i].end - list[i].start) + 1;
      if list[i].end >= cpuCount {
        fail := true;
      }
      i := i + 1;
    }
    return if fail then -1 else cpus;
  }

  // ---------------------------------------------------------------- the other CPUs

  /** The ranges from `from` on that the list leaves out. */
  function Complement(list: seq<Range>, from: int, cpuCount: int): seq<Range> {
    if list == [] then (if from < cpuCount then [Range(from, cpuCount - 1)] else [])
    else (if list[0].start > from then [Range(from, list[0].start - 1)] else [])
         + Complement(list[1..], list[0].end + 1, cpuCount)
  }

  /** All ranges lie between the first CPU to consider and the last one of the machine. */
  predicate Within(list: seq<Range>, from: int, cpuCount: int) {
    forall i :: 0 <= i < |list| ==> from <= list[i].start && list[i].end < cpuCount
  }

  /** A list in order and its complement share no CPU and together have all of them. */
  lemma {:induction false} Partition(list: seq<Range>, from: int, cpuCount: int, cpu: int)
    requires Sorted(list) && Within(list, from, cpuCount) && from <= cpuCount
    ensures In(Complement(list, from, cpuCount), cpu) <==> from <= cpu < cpuCount && !In(list, cpu)
    decreases |list|
  {
    if list == [] {
      if from < cpuCount {
        InCons(Range(from, cpuCount - 1), [], cpu);
        assert [Range(from, cpuCount - 1)] + [] == [Range(from, cpuCount - 1)];
      }
    } else {
      var rest := list[1..];
      SortedUncons(list);
      InCons(list[0], rest, cpu);
      assert [list[0]] + rest == list;
      forall i | 0 <= i < |rest| ensures list[0].end + 1 <= rest[i].start && rest[i].end < cpuCount {
        assert rest[i] == list[i + 1];
      }
      Partition(rest, list[0].end + 1, cpuCount, cpu);
      if list[0].start > from {
        InCons(Range(from, list[0].start - 1), Complement(rest, list[0].end + 1, cpuCount), cpu);
      } else {
        assert [] + Complement(rest, list[0].end + 1, cpuCount) == Complement(rest, list[0].end + 1, cpuCount);
      }
    }
  }

  lemma {:induction false} ComplementSorted(list: seq<Range>, from: int, cpuCount: int)
    requires Sorted(list) && Within(list, from, cpuCount)
    ensures Sorted(Complement(list, from, cpuCount))
    ensures var other := Complement(list, from, cpuCount); other != [] ==> from <= other[0].start
    decreases |list|
  {
    if list != [] {
      var rest := list[1..];
      SortedUncons(list);
      forall i | 0 <= i < |rest| ensures list[0].end + 1 <= rest[i].start && rest[i].end < cpuCount {
        assert rest[i] == list[i + 1];
      }
      var other := Complement(rest, list[0].end + 1, cpuCount);
      ComplementSorted(rest, list[0].end + 1, cpuCount);
      if list[0].start > from {
        SortedCons(Range(from, list[0].start - 1), other);
      } else {
        assert [] + other == other;
      }
    }
  }

  /** The merged list of ranges of this machine stays on it. */
  lemma AddAllWithin(ranges: seq<Range>, cpuCount: int)
    requires Ascending(ranges) && Within(ranges, 0, cpuCount)
    ensures Within(AddAll(ranges), 0, cpuCount)
  {
    var list := AddAll(ranges);
    forall i | 0 <= i < |list| ensures 0 <= list[i].start && list[i].end < cpuCount {
      AddAllMeaning(ranges, list[i].start);
      AddAllMeaning(ranges, list[i].end);
      assert InRange(list[i], list[i].start) && InRange(list[i], list[i].end);
      assert In(list, list[i].start) && In(list, list[i].end);
    }
  }

  /** For ranges of the machine with ascending starts: the count is the number of CPUs they
      name, and every CPU of the machine is either named or in the complement. */
  lemma WholeInput(ranges: seq<Range>, cpuCount: int, cpu: int)
    requires Ascending(ranges) && Within(ranges, 0, cpuCount) && 0 <= cpuCount
    ensures var list := AddAll(ranges);
            && Sorted(list) && Within(list, 0, cpuCount) && Count(list) == |Cpus(ranges)|
            && Sorted(Complement(list, 0, cpuCount))
            && (In(list, cpu) <==> In(ranges, cpu))
            && (In(Complement(list, 0, cpuCount), cpu) <==> 0 <= cpu < cpuCount && !In(ranges, cpu))
  {
    var list := AddAll(ranges);
    AddAllMeaning(ranges, cpu);
    AddAllWithin(ranges, cpuCount);
    Partition(list, 0, cpuCount, cpu);
    ComplementSorted(list, 0, cpuCount);
    CountIsCardinality(list);
    forall c ensures c in Cpus(list) <==> c in Cpus(ranges) {
      AddAllMeaning(ranges, c);
      CpusAreIn(list, c);
      CpusAreIn(ranges, c);
    }
    assert Cpus(list) == Cpus(ranges);
  }
}
