/**
 The text form of a CPU list, and the list of the other CPUs, which the deadline test makes by
 reading that text again.
 */
module CpuListText {
  import opened Sequences
  import opened CpuList
  import opened VprintfNumber
  import opened Decimals

  predicate IsCpuRange(r: Range) { 0 <= r.start <= r.end }

  predicate AreCpuRanges(list: seq<Range>) {
    forall i :: 0 <= i < |list| ==> IsCpuRange(list[i])
  }

  function RangeText(r: Range): string
    requires IsCpuRange(r)
  {
    if r.start == r.end then Decimal(r.start) else Decimal(r.start) + ("-" + Decimal(r.end))
  }

  function ListText(list: seq<Range>): string
    requires AreCpuRanges(list)
  {
    if list == [] then ""
    else RangeText(list[0]) + if |list| == 1 then "" else "," + ListText(list[1..])
  }

  // ---------------------------------------------------------------- printing

  function Comma(list: seq<Range>): string {
    if list == [] then "" else ","
  }

  lemma Regrouped(a: string, b: string, c: string, d: string)
    ensures a + (b + (c + d)) == (a + (b + c)) + d
  {
  }

  lemma AreCpuRangesSnoc(list: seq<Range>, r: Range)
    requires AreCpuRanges(list) && IsCpuRange(r)
    ensures AreCpuRanges(list + [r])
  {
  }

  lemma {:induction false} ListTextSnoc(list: seq<Range>, r: Range)
    requires AreCpuRanges(list) && IsCpuRange(r)
    ensures AreCpuRanges(list + [r]) && ListText(list + [r]) == ListText(list) + (Comma(list) + RangeText(r))
  {
    AreCpuRangesSnoc(list, r);
    if list == [] {
      assert list + [r] == [r];
    } else {
      var more, rest := list + [r], list[1..];
      assert more[1..] == rest + [r] && more[0] == list[0];
      ListTextSnoc(rest, r);
      assert ListText(more) == RangeText(list[0]) + ("," + ListText(rest + [r]));
      if rest == [] {
        assert ListText(list) == RangeText(list[0]);
      } else {
        Regrouped(RangeText(list[0]), ",", ListText(rest), "," + RangeText(r));
      }
    }
  }

  method AppendCpus(buf: string, start: int, end: int, comma: string) returns (buf': string)
    requires 0 <= start <= end
    ensures buf' == buf + (comma + RangeText(Range(start, end)))
  {
    if start == end {
      buf' := buf + (comma + Decimal(start));
    } else {
      buf' := buf + (comma + (Decimal(start) + ("-" + Decimal(end))));
    }
  }

  /** The buffer has the text of the ranges `done`, and the comma for the next one is set. */
  predicate Printed(buf: string, comma: string, done: seq<Range>) {
    AreCpuRanges(done) && buf == ListText(done) && comma == Comma(done)
  }

  method PrintNext(buf: string, ghost done: seq<Range>, ghost more: seq<Range>, start: int, end: int, comma: string)
    returns (buf': string, comma': string)
    requires 0 <= start <= end && Printed(buf, comma, done) && more == done + [Range(start, end)]
    ensures Printed(buf', comma', more)
  {
    ListTextSnoc(done, Range(start, end));
    buf' := AppendCpus(buf, start, end, comma);
    comma' := ",";
  }

  /** `make_new_list`. */
  method MakeNewList(list: seq<Range>) returns (buf: string)
    requires AreCpuRanges(list)
    ensures buf == ListText(list)
  {
    var comma, i := "", 0;
    buf := "";
    ghost var done: seq<Range> := [];
    while i < |list|
      invariant 0 <= i <= |list| && done == list[..i] && Printed(buf, comma, done)
    {
      ghost var more := done + [Range(list[i].start, list[i].end)];
      assert IsCpuRange(list[i]);
      buf, comma := PrintNext(buf, done, more, list[i].start, list[i].end, comma);
      done, i := more, i + 1;
    }
    assert done == list;
  }

  // ---------------------------------------------------------------- reading

  /** What reading one range does. */
  lemma ReadRange(r: Range, tail: string)
    requires IsCpuRange(r) && (tail == "" || tail[0] == ',')
    ensures var s := RangeText(r) + tail;
            var q := SkipDigits(s);
            && Atoi(s) == r.start
            && (r.start == r.end ==> q == tail)
            && (r.start != r.end ==> q != "" && q[0] == '-' && Atoi(q[1..]) == r.end && SkipDigits(q[1..]) == tail)
  {
    if r.start == r.end {
      ReadDecimal(r.start, tail);
    } else {
      var q := "-" + (Decimal(r.end) + tail);
      assert RangeText(r) + tail == Decimal(r.start) + q;
      ReadDecimal(r.start, q);
      assert q[1..] == Decimal(r.end) + tail;
      ReadDecimal(r.end, tail);
    }
  }

  /** The text behind the first range of a list, without the comma. */
  lemma ListTextHead(list: seq<Range>)
    requires AreCpuRanges(list) && list != []
    ensures var tail := if |list| == 1 then "" else "," + ListText(list[1..]);
            && ListText(list) == RangeText(list[0]) + tail && (tail == "" || tail[0] == ',')
            && (if tail == "" then tail else tail[1..]) == ListText(list[1..])
  {
  }

  lemma EmptyText(list: seq<Range>)
    requires AreCpuRanges(list)
    ensures ListText(list) == "" <==> list == []
  {
    if list != [] {
      assert |Digits(list[0].start, 10)| > 0;
    }
  }

  /** One turn of the reading loop: the first range is read and the text behind it and its
      comma is left. */
  method ReadOne(p: string, ghost list: seq<Range>) returns (first: int, last: int, p': string)
    requires AreCpuRanges(list) && list != [] && p == ListText(list)
    ensures Range(first, last) == list[0] && p' == ListText(list[1..])
  {
    ghost var tail := if |list| == 1 then "" else "," + ListText(list[1..]);
    ListTextHead(list);
    ReadRange(list[0], tail);
    first := Atoi(p);
    last := first;
    p' := SkipDigits(p);
    if p' != "" && p'[0] == '-' {
      p' := p'[1..];
      last := Atoi(p');
      p' := SkipDigits(p');
    }
    if p' != "" {
      p' := p'[1..];
    }
  }

  /** The list still to be read: in order, and from the next CPU to consider on. */
  predicate ToRead(rest: seq<Range>, cpu: int, cpuCount: int) {
    0 <= cpu && Sorted(rest) && Within(rest, cpu, cpuCount)
  }

  lemma ToReadTail(rest: seq<Range>, cpu: int, cpuCount: int)
    requires ToRead(rest, cpu, cpuCount) && rest != []
    ensures IsCpuRange(rest[0]) && rest[0].end < cpuCount && ToRead(rest[1..], rest[0].end + 1, cpuCount)
  {
    SortedUncons(rest);
    forall i | 0 <= i < |rest[1..]| ensures rest[0].end + 1 <= rest[1..][i].start && rest[1..][i].end < cpuCount {
      assert rest[1..][i] == rest[i + 1];
    }
  }

  lemma ToReadRanges(rest: seq<Range>, cpu: int, cpuCount: int)
    requires ToRead(rest, cpu, cpuCount)
    ensures AreCpuRanges(rest)
  {
  }

  /** The CPUs from `cpu` up to `first` are added, if there are any. */
  function WithGap(done: seq<Range>, cpu: int, first: int): seq<Range> {
    if first > cpu then done + [Range(cpu, first - 1)] else done
  }

  /** The ranges collected so far, with the gaps still to come. */
  function Collect(done: seq<Range>, rest: seq<Range>, cpu: int, cpuCount: int): seq<Range>
    decreases |rest|
  {
    if rest == [] then WithGap(done, cpu, cpuCount)
    else Collect(WithGap(done, cpu, rest[0].start), rest[1..], rest[0].end + 1, cpuCount)
  }

  lemma {:induction false} CollectIsComplement(done: seq<Range>, rest: seq<Range>, cpu: int, cpuCount: int)
    ensures Collect(done, rest, cpu, cpuCount) == done + Complement(rest, cpu, cpuCount)
    decreases |rest|
  {
    if rest != [] {
      var gap := if rest[0].start > cpu then [Range(cpu, rest[0].start - 1)] else [];
      var more := Complement(rest[1..], rest[0].end + 1, cpuCount);
      CollectIsComplement(done + gap, rest[1..], rest[0].end + 1, cpuCount);
      assert gap == [] ==> done + gap == done;
      Regroup(done, gap, more);
    }
  }

  /** Where the loop stands: `done` is printed, `rest` is still to be read from the text. */
  predicate Reading(p: string, cpus: string, comma: string, cpu: int, done: seq<Range>, rest: seq<Range>, cpuCount: int) {
    ToRead(rest, cpu, cpuCount) && AreCpuRanges(rest) && p == ListText(rest) && Printed(cpus, comma, done)
  }

  method PrintGap(cpus: string, comma: string, ghost done: seq<Range>, cpu: int, first: int)
    returns (cpus': string, comma': string)
    requires 0 <= cpu && Printed(cpus, comma, done)
    ensures Printed(cpus', comma', WithGap(done, cpu, first))
  {
    ghost var more := WithGap(done, cpu, first);
    if first > cpu {
      cpus', comma' := PrintNext(cpus, done, more, cpu, first - 1, comma);
    } else {
      cpus', comma' := cpus, comma;
    }
  }

  /** One turn of the loop. */
  method ReadTurn(p: string, cpus: string, comma: string, cpu: int,
                  ghost done: seq<Range>, ghost rest: seq<Range>, cpuCount: int)
    returns (p': string, cpus': string, comma': string, cpu': int)
    requires Reading(p, cpus, comma, cpu, done, rest, cpuCount) && rest != []
    ensures Reading(p', cpus', comma', cpu', WithGap(done, cpu, rest[0].start), rest[1..], cpuCount)
    ensures cpu' == rest[0].end + 1
  {
    var first, last;
    first, last, p' := ReadOne(p, rest);
    cpus', comma' := PrintGap(cpus, comma, done, cpu, first);
    cpu' := last + 1;
    assert ToRead(rest[1..], cpu', cpuCount) && AreCpuRanges(rest[1..]) by {
      ToReadTail(rest, cpu, cpuCount);
      ToReadRanges(rest[1..], rest[0].end + 1, cpuCount);
    }
  }

  lemma StillOnMachine(p: string, cpus: string, comma: string, cpu: int, done: seq<Range>, rest: seq<Range>, cpuCount: int)
    requires Reading(p, cpus, comma, cpu, done, rest, cpuCount)
    ensures p != "" && cpu < cpuCount <==> rest != []
  {
    EmptyText(rest);
    if rest != [] {
      ToReadTail(rest, cpu, cpuCount);
    }
  }

  /** The loop of `make_other_cpu_list`: all ranges of the text are read, and the gaps before
      them are printed. */
  method PrintGaps(text: string, ghost list: seq<Range>, cpuCount: int)
    returns (cpus: string, comma: string, cpu: int, ghost done: seq<Range>)
    requires ToRead(list, 0, cpuCount) && AreCpuRanges(list) && text == ListText(list)
    ensures 0 <= cpu && Printed(cpus, comma, done) && WithGap(done, cpu, cpuCount) == Collect([], list, 0, cpuCount)
  {
    var p := text;
    ghost var rest := list;
    cpus, comma, cpu, done := "", "", 0, [];
    StillOnMachine(p, cpus, comma, cpu, done, rest, cpuCount);
    while p != "" && cpu < cpuCount
      invariant Reading(p, cpus, comma, cpu, done, rest, cpuCount) && (p != "" && cpu < cpuCount <==> rest != [])
      invariant Collect(done, rest, cpu, cpuCount) == Collect([], list, 0, cpuCount)
      decreases |rest|
    {
      ghost var before := cpu;
      p, cpus, comma, cpu := ReadTurn(p, cpus, comma, cpu, done, rest, cpuCount);
      done, rest := WithGap(done, before, rest[0].start), rest[1..];
      StillOnMachine(p, cpus, comma, cpu, done, rest, cpuCount);
    }
  }

  /** `make_other_cpu_list`: reads the text of a list and prints the CPUs it leaves out. */
  method MakeOtherCpuList(text: string, ghost list: seq<Range>, cpuCount: int) returns (cpus: string)
    requires ToRead(list, 0, cpuCount) && AreCpuRanges(list) && text == ListText(list)
    ensures AreCpuRanges(Complement(list, 0, cpuCount)) && cpus == ListText(Complement(list, 0, cpuCount))
  {
    var comma, cpu;
    ghost var done;
    cpus, comma, cpu, done := PrintGaps(text, list, cpuCount);
    cpus, comma := PrintGap(cpus, comma, done, cpu, cpuCount);
    CollectIsComplement([], list, 0, cpuCount);
    assert [] + Complement(list, 0, cpuCount) == Complement(list, 0, cpuCount);
  }

  /** From ranges to the two texts: the merged list and the list of the other CPUs. Together
      the ranges they print have every CPU of the machine exactly once. */
  method PrintBoth(ranges: seq<Range>, cpuCount: int) returns (mine: string, others: string, count: int)
    requires Ascending(ranges) && Within(ranges, 0, cpuCount) && 0 <= cpuCount
    ensures var list := AddAll(ranges); var other := Complement(list, 0, cpuCount);
            && AreCpuRanges(list) && mine == ListText(list) && AreCpuRanges(other) && others == ListText(other)
            && count == |Cpus(ranges)|
            && forall cpu :: (In(list, cpu) <==> In(ranges, cpu)) && (In(other, cpu) <==> 0 <= cpu < cpuCount && !In(ranges, cpu))
  {
    var list, i := [], 0;
    assert ranges[..0] == [];
    while i < |ranges|
      invariant 0 <= i <= |ranges| && list == AddAll(ranges[..i])
    {
      assert ranges[..i + 1][..i] == ranges[..i];
      list := AddCpus(list, ranges[i].start, ranges[i].end);
      i := i + 1;
    }
    assert ranges[..i] == ranges;
    forall cpu
      ensures (In(list, cpu) <==> In(ranges, cpu)) &&
              (In(Complement(list, 0, cpuCount), cpu) <==> 0 <= cpu < cpuCount && !In(ranges, cpu))
    {
      WholeInput(ranges, cpuCount, cpu);
    }
    WholeInput(ranges, cpuCount, 0);
    ToReadRanges(list, 0, cpuCount);
    mine := MakeNewList(list);
    count := CountCpus(list, cpuCount);
    others := MakeOtherCpuList(mine, list, cpuCount);
  }
}
