/**
 ASCII-mode transfers of the FTP server (section 3.1.1.1 of RFC 959): RETR sends every line
 feed as CR LF, STOR turns CR LF back into a line feed, both over a stream that arrives cut
 into arbitrary chunks.
 */
module FtpAscii {
  import opened Sequences

  type Byte = bv8

  const CR: Byte := 13
  const LF: Byte := 10

  // ---------------------------------------------------------------- what the transfers mean

  function Concat(chunks: seq<seq<Byte>>): seq<Byte> {
    if chunks == [] then [] else Concat(chunks[..|chunks| - 1]) + chunks[|chunks| - 1]
  }

  /** Every LF becomes CR LF. */
  function ToNet(s: seq<Byte>): seq<Byte> {
    if s == [] then [] else (if s[0] == LF then [CR, LF] else [s[0]]) + ToNet(s[1..])
  }

  /** The first byte stays unless it is a CR that an LF or the end of the stream follows. */
  predicate Kept(s: seq<Byte>)
    requires s != []
  {
    s[0] == CR ==> |s| > 1 && s[1] != LF
  }

  /** CR LF becomes LF, and an unpaired CR at the very end is withheld. */
  function FromNet(s: seq<Byte>): seq<Byte> {
    if s == [] then [] else (if Kept(s) then [s[0]] else []) + FromNet(s[1..])
  }

  predicate EndsInCr(s: seq<Byte>) {
    s != [] && s[|s| - 1] == CR
  }

  /** The number of LFs that no CR precedes. */
  function BareLfs(s: seq<Byte>): nat {
    if s == [] then 0
    else
      var n := |s| - 1;
      BareLfs(s[..n]) + if s[n] == LF && !EndsInCr(s[..n]) then 1 else 0
  }

  predicate IsPrefix(a: seq<Byte>, b: seq<Byte>) {
    |a| <= |b| && a == b[..|a|]
  }

  // ---------------------------------------------------------------- composition

  lemma {:induction false} ToNetConcat(a: seq<Byte>, b: seq<Byte>)
    ensures ToNet(a + b) == ToNet(a) + ToNet(b)
  {
    if a == [] {
      assert a + b == b;
    } else {
      assert (a + b)[1..] == a[1..] + b;
      ToNetConcat(a[1..], b);
    }
  }

  lemma {:induction false} ToNetPlain(s: seq<Byte>)
    requires LF !in s
    ensures ToNet(s) == s
  {
    if s != [] {
      ToNetPlain(s[1..]);
    }
  }

  /** What a CR at the end of `a` becomes when `b` follows. */
  function Released(a: seq<Byte>, b: seq<Byte>): seq<Byte> {
    if EndsInCr(a) && b != [] && b[0] != LF then [CR] else []
  }

  /** What the first byte contributes. */
  function Head(s: seq<Byte>): seq<Byte>
    requires s != []
  {
    if Kept(s) then [s[0]] else []
  }

  lemma FromNetOne(c: Byte, b: seq<Byte>)
    ensures FromNet([c] + b) == FromNet([c]) + (Released([c], b) + FromNet(b))
  {
    assert ([c] + b)[1..] == b && [c][1..] == [];
    assert Head([c] + b) == FromNet([c]) + Released([c], b);
    Regroup(FromNet([c]), Released([c], b), FromNet(b));
  }

  lemma {:induction false} FromNetConcat(a: seq<Byte>, b: seq<Byte>)
    ensures FromNet(a + b) == FromNet(a) + (Released(a, b) + FromNet(b))
  {
    if a == [] {
      assert a + b == b;
    } else if |a| == 1 {
      assert a == [a[0]];
      FromNetOne(a[0], b);
    } else {
      var t := a[1..];
      assert (a + b)[1..] == t + b && (a + b)[0] == a[0] && (a + b)[1] == a[1];
      FromNetConcat(t, b);
      assert Released(t, b) == Released(a, b);
      Regroup(Head(a), FromNet(t), Released(a, b) + FromNet(b));
    }
  }

  /** No CR LF pair inside. */
  predicate NoPair(s: seq<Byte>) {
    forall i :: 0 < i < |s| && s[i] == LF ==> s[i - 1] != CR
  }

  lemma {:induction false} FromNetNoPair(s: seq<Byte>)
    requires NoPair(s)
    ensures FromNet(s) == if EndsInCr(s) then s[..|s| - 1] else s
  {
    if s != [] {
      var p, c := s[..|s| - 1], s[|s| - 1];
      FromNetNoPair(p);
      FromNetSnoc(p, c);
      assert s == p + [c];
      assert EndsInCr(p) ==> p == p[..|p| - 1] + [CR];
    }
  }

  lemma BareSnoc(s: seq<Byte>, c: Byte)
    ensures BareLfs(s + [c]) == BareLfs(s) + if c == LF && !EndsInCr(s) then 1 else 0
  {
    assert (s + [c])[..|s|] == s;
  }

  /** The network form of one byte. */
  function Image(c: Byte): seq<Byte> {
    if c == LF then [CR, LF] else [c]
  }

  lemma ToNetSnoc(s: seq<Byte>, c: Byte)
    ensures ToNet(s + [c]) == ToNet(s) + Image(c)
  {
    ToNetConcat(s, [c]);
    assert [c][1..] == [];
  }

  /** What one more byte adds. */
  function Added(s: seq<Byte>, c: Byte): seq<Byte> {
    if c == LF then [LF]
    else (if EndsInCr(s) then [CR] else []) + if c == CR then [] else [c]
  }

  lemma FromNetSnoc(s: seq<Byte>, c: Byte)
    ensures FromNet(s + [c]) == FromNet(s) + Added(s, c)
  {
    FromNetConcat(s, [c]);
    assert [c][1..] == [];
    assert FromNet([c]) == if c == CR then [] else [c];
  }

  /** RETR on the bytes: a line feed, code 10, goes out as 13 and 10, every other byte as it
      is. */
  lemma RetrBytes(a: seq<Byte>, c: Byte, b: seq<Byte>)
    ensures ToNet(a + [c] + b) == ToNet(a) + (if c == 10 then [13, 10] else [c]) + ToNet(b)
  {
    ToNetSnoc(a, c);
    ToNetConcat(a + [c], b);
  }

  /** STOR on the bytes: 13 and 10 come in as 10, a 13 before anything else stays, a 13 at the
      very end is withheld, and every other byte comes in as it is. */
  lemma StorBytes(c: Byte, s: seq<Byte>)
    ensures c != 13 ==> FromNet([c] + s) == [c] + FromNet(s)
    ensures FromNet([13, 10] + s) == [10] + FromNet(s)
    ensures c != 10 ==> FromNet([13, c] + s) == [13] + FromNet([c] + s)
    ensures FromNet([13]) == []
  {
    assert ([c] + s)[1..] == s && ([13, 10] + s)[1..] == [10] + s && ([10] + s)[1..] == s;
    assert ([13, c] + s)[1..] == [c] + s && [13][1..] == [];
  }

  /** A line feed counts as bare unless a 13 is right before it. */
  lemma BareBytes(s: seq<Byte>, c: Byte)
    ensures BareLfs(s + [c]) == BareLfs(s) + if c == 10 && (s == [] || s[|s| - 1] != 13) then 1 else 0
  {
    BareSnoc(s, c);
  }

  // ---------------------------------------------------------------- the round trip

  lemma {:induction false} ToNetLast(s: seq<Byte>)
    ensures (ToNet(s) == [] <==> s == []) && (s != [] ==> ToNet(s)[|ToNet(s)| - 1] == s[|s| - 1])
  {
    if s != [] {
      ToNetLast(s[1..]);
      if |s| == 1 {
        assert ToNet(s[1..]) == [];
      }
    }
  }

  lemma {:induction false} NetHasNoBareLf(s: seq<Byte>)
    ensures BareLfs(ToNet(s)) == 0
  {
    if s != [] {
      var p, c := s[..|s| - 1], s[|s| - 1];
      assert s == p + [c];
      NetHasNoBareLf(p);
      ToNetSnoc(p, c);
      if c == LF {
        BareSnoc(ToNet(p), CR);
        BareSnoc(ToNet(p) + [CR], LF);
        assert ToNet(s) == (ToNet(p) + [CR]) + [LF];
      } else {
        BareSnoc(ToNet(p), c);
      }
    }
  }

  lemma ImageBack(p: seq<Byte>, n: seq<Byte>, c: Byte)
    requires EndsInCr(n) == EndsInCr(p)
    requires FromNet(n) == if EndsInCr(p) then p[..|p| - 1] else p
    ensures FromNet(n + Image(c)) == if c == CR then p else p + [c]
  {
    if c == LF {
      FromNetSnoc(n, CR);
      FromNetSnoc(n + [CR], LF);
      assert n + Image(c) == (n + [CR]) + [LF];
    } else {
      FromNetSnoc(n, c);
    }
  }

  /** What comes back from the network form: the file, but for a CR at its very end. */
  lemma {:induction false} NetAndBack(s: seq<Byte>)
    ensures FromNet(ToNet(s)) == if EndsInCr(s) then s[..|s| - 1] else s
  {
    if s != [] {
      var p, c := s[..|s| - 1], s[|s| - 1];
      assert s == p + [c];
      NetAndBack(p);
      ToNetLast(p);
      ToNetSnoc(p, c);
      ImageBack(p, ToNet(p), c);
    }
  }

  /** A file survives RETR followed by STOR exactly when it does not end in CR; the warning
      about bare line feeds never shows. */
  lemma RetrThenStor(file: seq<Byte>)
    ensures FromNet(ToNet(file)) == file <==> !EndsInCr(file)
    ensures BareLfs(ToNet(file)) == 0
  {
    NetAndBack(file);
    NetHasNoBareLf(file);
  }

  /** The network form of what one more byte adds. */
  lemma AddedToNet(s: seq<Byte>, c: Byte)
    ensures ToNet(FromNet(s + [c])) == ToNet(FromNet(s)) +
            if c == LF then [CR, LF] else Added(s, c)
  {
    FromNetSnoc(s, c);
    ToNetConcat(FromNet(s), Added(s, c));
    if c == LF {
      ToNetSnoc([], LF);
    } else {
      ToNetPlain(Added(s, c));
    }
  }

  lemma {:induction false} NetLength(s: seq<Byte>)
    ensures |ToNet(FromNet(s))| + (if EndsInCr(s) then 1 else 0) == |s| + BareLfs(s)
  {
    if s != [] {
      var p, c := s[..|s| - 1], s[|s| - 1];
      assert s == p + [c];
      NetLength(p);
      BareSnoc(p, c);
      AddedToNet(p, c);
    }
  }

  lemma {:induction false} NetForm(s: seq<Byte>)
    requires BareLfs(s) == 0
    ensures s == ToNet(FromNet(s)) + if EndsInCr(s) then [CR] else []
  {
    if s != [] {
      var p, c := s[..|s| - 1], s[|s| - 1];
      assert s == p + [c];
      BareSnoc(p, c);
      NetForm(p);
      AddedToNet(p, c);
    }
  }

  /** A stream survives STOR followed by RETR exactly when STOR warns of no bare line feed and
      the stream does not end in CR. */
  lemma StorThenRetr(s: seq<Byte>)
    ensures ToNet(FromNet(s)) == s <==> BareLfs(s) == 0 && !EndsInCr(s)
  {
    NetHasNoBareLf(FromNet(s));
    NetLength(s);
    if BareLfs(s) == 0 && !EndsInCr(s) {
      NetForm(s);
    }
  }

  // ---------------------------------------------------------------- the transfers

  /** A socket or file being written: what it has taken so far, how much each call takes (a
      negative number is an error), and whether some call took less than it was given. */
  datatype Sink = Sink(data: seq<Byte>, takes: nat -> int, calls: nat, short: bool)

  /** The size of the transfer buffer. */
  const FTPD_DATASIZE: nat := 4 * 1024

  /** Every call takes a whole buffer, if it is given that much. */
  ghost predicate TakesAll(takes: nat -> int) {
    forall k :: takes(k) >= FTPD_DATASIZE
  }

  /** Between two states of a sink: calls that take all they are given do not fall short. */
  ghost predicate Continues(sink: Sink, sink': Sink) {
    sink'.takes == sink.takes && (TakesAll(sink.takes) && !sink.short ==> !sink'.short)
  }

  /** What calls of `read` or `recv` into the buffer return while there is something. */
  predicate AreBuffers(chunks: seq<seq<Byte>>) {
    forall k :: 0 <= k < |chunks| ==> 0 < |chunks[k]| <= FTPD_DATASIZE
  }

  method Write(sink: Sink, bytes: seq<Byte>) returns (sink': Sink, n: int)
    requires |bytes| <= FTPD_DATASIZE
    ensures Continues(sink, sink')
    ensures n == |bytes| ==> sink'.data == sink.data + bytes && sink'.short == sink.short
    ensures n != |bytes| ==> IsPrefix(sink'.data, sink.data + bytes) && sink'.short
  {
    var t := sink.takes(sink.calls);
    n := if t > |bytes| then |bytes| else t;
    var k := if n < 0 then 0 else n;
    sink' := Sink(sink.data + bytes[..k], sink.takes, sink.calls + 1, sink.short || n != |bytes|);
    assert k == |bytes| ==> bytes[..k] == bytes;
  }

  lemma {:induction false} ConcatSplit(chunks: seq<seq<Byte>>, k: nat)
    requires k <= |chunks|
    ensures Concat(chunks) == Concat(chunks[..k]) + Concat(chunks[k..])
  {
    var n := |chunks| - 1;
    if k == |chunks| {
      assert chunks[..k] == chunks;
    } else {
      ConcatSplit(chunks[..n], k);
      assert chunks[..n][..k] == chunks[..k] && chunks[..n][k..] == chunks[k..][..n - k];
    }
  }

  lemma ConcatNext(chunks: seq<seq<Byte>>, k: nat)
    requires k < |chunks|
    ensures Concat(chunks[..k + 1]) == Concat(chunks[..k]) + chunks[k]
  {
    assert chunks[..k + 1][..k] == chunks[..k];
  }

  lemma PrefixGrows(out: seq<Byte>, a: seq<Byte>, b: seq<Byte>)
    requires IsPrefix(out, a)
    ensures IsPrefix(out, a + b)
  {
  }

  lemma ToNetGrows(chunks: seq<seq<Byte>>, k: nat, out: seq<Byte>)
    requires k <= |chunks| && IsPrefix(out, ToNet(Concat(chunks[..k])))
    ensures IsPrefix(out, ToNet(Concat(chunks)))
  {
    var a, b := Concat(chunks[..k]), Concat(chunks[k..]);
    ConcatSplit(chunks, k);
    ToNetConcat(a, b);
    PrefixGrows(out, ToNet(a), ToNet(b));
  }

  lemma FromNetGrows(chunks: seq<seq<Byte>>, k: nat, out: seq<Byte>)
    requires k <= |chunks| && IsPrefix(out, FromNet(Concat(chunks[..k])))
    ensures IsPrefix(out, FromNet(Concat(chunks)))
  {
    var a, b := Concat(chunks[..k]), Concat(chunks[k..]);
    ConcatSplit(chunks, k);
    FromNetConcat(a, b);
    PrefixGrows(out, FromNet(a), Released(a, b) + FromNet(b));
  }

  // RETR

  /** How much of the chunk comes before its first LF. */
  method FindLf(s: seq<Byte>) returns (i: nat)
    ensures i <= |s| && LF !in s[..i] && (i < |s| ==> s[i] == LF)
  {
    i := 0;
    while i < |s|
      invariant i <= |s| && LF !in s[..i]
    {
      if s[i] == LF {
        break;
      }
      i := i + 1;
    }
  }

  lemma LineToNet(s: seq<Byte>, i: nat)
    requires i < |s| && LF !in s[..i] && s[i] == LF
    ensures ToNet(s) == (s[..i] + [CR, LF]) + ToNet(s[i + 1..])
  {
    assert s == (s[..i] + [LF]) + s[i + 1..];
    ToNetPlain(s[..i]);
    ToNetSnoc(s[..i], LF);
    ToNetConcat(s[..i] + [LF], s[i + 1..]);
  }

  /** The text up to the first LF, and then CR LF for that LF; `i` is how much of the text
      this takes. */
  method SendLine(sink: Sink, s: seq<Byte>) returns (sink': Sink, i: nat, ok: bool)
    requires !sink.short && 0 < |s| <= FTPD_DATASIZE
    ensures (ok <==> !sink'.short) && Continues(sink, sink')
    ensures ok ==> 0 < i <= |s| && sink'.data + ToNet(s[i..]) == sink.data + ToNet(s)
    ensures IsPrefix(sink'.data, sink.data + ToNet(s))
  {
    i := FindLf(s);
    var run := s[..i];
    if i < |s| {
      LineToNet(s, i);
    } else {
      ToNetPlain(s);
    }
    var n;
    sink', n := Write(sink, run);
    if n != i {
      return sink', i, false;
    }
    if i < |s| {
      sink', n := Write(sink', [CR, LF]);
      if n != 2 {
        return sink', i, false;
      }
      i := i + 1;
    }
    ok := true;
  }

  /** One buffer of the file, line by line; `rest` is what could not be sent. */
  method SendChunk(sink: Sink, chunk: seq<Byte>) returns (sink': Sink, rest: nat)
    requires !sink.short && |chunk| <= FTPD_DATASIZE
    ensures (rest == 0 <==> !sink'.short) && Continues(sink, sink')
    ensures rest == 0 ==> sink'.data == sink.data + ToNet(chunk)
    ensures IsPrefix(sink'.data, sink.data + ToNet(chunk))
  {
    var e := 0;
    rest, sink' := |chunk|, sink;
    while rest > 0
      invariant e + rest == |chunk| && !sink'.short && Continues(sink, sink')
      invariant sink'.data + ToNet(chunk[e..]) == sink.data + ToNet(chunk)
    {
      var i, ok;
      sink', i, ok := SendLine(sink', chunk[e..]);
      if !ok {
        break;
      }
      assert chunk[e..][i..] == chunk[e + i..];
      e, rest := e + i, rest - i;
    }
  }

  /** The ASCII branch of RETR: the file arrives in chunks, `end` is what the last read
      returned (0 at the end of the file, negative on an error). The transfer is reported as
      complete only if the client got the whole file in network form; otherwise the client got
      a prefix of it. */
  method Retrieve(chunks: seq<seq<Byte>>, end: int, closes: bool, takes: nat -> int) returns (sink: Sink, complete: bool)
    requires end <= 0 && AreBuffers(chunks)
    ensures (complete <==> !sink.short && end == 0 && closes) && (TakesAll(takes) ==> !sink.short)
    ensures !sink.short ==> sink.data == ToNet(Concat(chunks))
    ensures IsPrefix(sink.data, ToNet(Concat(chunks)))
  {
    var k, rest, n := 0, 0, -1;
    sink := Sink([], takes, 0, false);
    while rest == 0
      invariant k <= |chunks| && (rest == 0 <==> !sink.short) && Continues(Sink([], takes, 0, false), sink)
      invariant rest != 0 ==> n > 0
      invariant !sink.short ==> sink.data == ToNet(Concat(chunks[..k]))
      invariant IsPrefix(sink.data, ToNet(Concat(chunks[..k])))
      decreases |chunks| - k
    {
      if k == |chunks| {
        n := end;
        break;
      }
      ConcatNext(chunks, k);
      ToNetConcat(Concat(chunks[..k]), chunks[k]);
      n := |chunks[k]|;
      sink, rest := SendChunk(sink, chunks[k]);
      k := k + 1;
    }
    assert k == |chunks| ==> chunks[..k] == chunks;
    ToNetGrows(chunks, k, sink.data);
    complete := n == 0 && closes;
  }

  // STOR

  /** What a scan leaves: a run without CR LF inside, or one that ends in its first CR LF, the
      CR of which may be the last byte of what came before. */
  predicate IsRun(done: seq<Byte>, run: seq<Byte>, sub: nat, pendedCr: bool) {
    if sub == 0 then
      && NoPair(run)
      && pendedCr == EndsInCr(if run == [] then done else run)
      && (run != [] && run[0] == LF ==> !EndsInCr(done))
    else
      && sub == 2 && !pendedCr && run != [] && run[|run| - 1] == LF
      && NoPair(run[..|run| - 1])
      && EndsInCr(if |run| == 1 then done else run[..|run| - 1])
  }

  lemma RunSnoc(done: seq<Byte>, run: seq<Byte>, c: Byte, pcr: bool)
    requires IsRun(done, run, 0, pcr) || (run == [] && !pcr && c != LF)
    ensures if c == LF && pcr then IsRun(done, run + [c], 2, false) else IsRun(done, run + [c], 0, c == CR)
  {
    assert (run + [c])[..|run|] == run;
  }

  lemma BareRun(done: seq<Byte>, run: seq<Byte>, c: Byte, pcr: bool)
    requires IsRun(done, run, 0, pcr) || (run == [] && !pcr && c != LF)
    ensures BareLfs(done + (run + [c])) == BareLfs(done + run) + if c == LF && !pcr then 1 else 0
  {
    BareSnoc(done + run, c);
    assert done + (run + [c]) == (done + run) + [c];
    assert run == [] ==> done + run == done;
  }

  /** The scan has seen i bytes of `s` and no CR LF. A CR before `s` that is already written
      counts as no CR. */
  predicate Scanning(done: seq<Byte>, s: seq<Byte>, i: nat, pcr: bool, bareLfs: nat)
    requires i <= |s| && s != []
  {
    && (IsRun(done, s[..i], 0, pcr) || (i == 0 && !pcr && s[0] != LF))
    && bareLfs == BareLfs(done + s[..i])
  }

  lemma ScanStep(done: seq<Byte>, s: seq<Byte>, i: nat, pcr: bool, bareLfs: nat)
    requires i < |s| && Scanning(done, s, i, pcr, bareLfs)
    ensures if s[i] == LF && pcr
            then IsRun(done, s[..i + 1], 2, false) && bareLfs == BareLfs(done + s[..i + 1])
            else IsRun(done, s[..i + 1], 0, s[i] == CR)
                 && BareLfs(done + s[..i + 1]) == bareLfs + if s[i] == LF then 1 else 0
  {
    RunSnoc(done, s[..i], s[i], pcr);
    BareRun(done, s[..i], s[i], pcr);
    assert s[..i] + [s[i]] == s[..i + 1];
  }

  /** Looks for the next CR LF from the start of `s` on, where `done` has come before; stops
      behind it with `sub` set to 2, or at the end of the chunk. */
  method ScanRun(ghost done: seq<Byte>, s: seq<Byte>, pendedCr: bool, bareLfs: nat)
    returns (i: nat, sub: nat, pendedCr': bool, bareLfs': nat)
    requires s != [] && Scanning(done, s, 0, pendedCr, bareLfs)
    ensures 0 < i <= |s| && bareLfs' == BareLfs(done + s[..i])
    ensures IsRun(done, s[..i], sub, pendedCr') && (sub == 0 ==> i == |s|)
  {
    i, sub, pendedCr', bareLfs' := 0, 0, pendedCr, bareLfs;
    while i < |s|
      invariant i <= |s| && sub == 0 && Scanning(done, s, i, pendedCr', bareLfs')
    {
      ScanStep(done, s, i, pendedCr', bareLfs');
      var pcr := pendedCr';
      pendedCr' := false;
      if s[i] == CR {
        pendedCr' := true;
      } else if s[i] == LF {
        if pcr {
          sub, i := 2, i + 1;
          break;
        }
        bareLfs' := bareLfs' + 1;
      }
      i := i + 1;
    }
  }

  /** What STOR writes of a run before the LF. */
  function Plain(run: seq<Byte>, sub: nat, pendedCr: bool): seq<Byte> {
    var count := |run| - sub - if pendedCr then 1 else 0;
    if 0 < count <= |run| then run[..count] else []
  }

  function Written(run: seq<Byte>, sub: nat, pendedCr: bool): seq<Byte> {
    Plain(run, sub, pendedCr) + if sub == 2 then [LF] else []
  }

  lemma OpenRun(done: seq<Byte>, run: seq<Byte>, pendedCr: bool)
    requires run != [] && IsRun(done, run, 0, pendedCr)
    ensures FromNet(run) == Written(run, 0, pendedCr)
  {
    FromNetNoPair(run);
  }

  lemma ClosedRun(done: seq<Byte>, run: seq<Byte>)
    requires IsRun(done, run, 2, false)
    ensures FromNet(run) == Written(run, 2, false)
  {
    var r := run[..|run| - 1];
    assert run == r + [LF];
    FromNetSnoc(r, LF);
    FromNetNoPair(r);
    if |run| > 1 {
      assert r[..|r| - 1] == run[..|run| - 2];
    }
  }

  lemma RunMeaning(done: seq<Byte>, run: seq<Byte>, sub: nat, pendedCr: bool)
    requires run != [] && IsRun(done, run, sub, pendedCr)
    ensures FromNet(done + run) == FromNet(done) + (Released(done, run) + Written(run, sub, pendedCr))
  {
    FromNetConcat(done, run);
    if sub == 0 {
      OpenRun(done, run, pendedCr);
    } else {
      ClosedRun(done, run);
    }
  }

  /** Writes a run: the plain part, then the LF that stands for a CR LF. */
  method WriteRun(sink: Sink, run: seq<Byte>, sub: nat, pendedCr: bool) returns (sink': Sink, res: bool)
    requires !sink.short && |run| <= FTPD_DATASIZE && (sub == 0 || (sub == 2 && run != [] && run[|run| - 1] == LF))
    ensures (res <==> !sink'.short) && Continues(sink, sink')
    ensures res ==> sink'.data == sink.data + Written(run, sub, pendedCr)
    ensures IsPrefix(sink'.data, sink.data + Written(run, sub, pendedCr))
  {
    var count := |run| - sub - if pendedCr then 1 else 0;
    sink', res := sink, true;
    if count > 0 {
      var n;
      sink', n := Write(sink', run[..count]);
      if n != count {
        PrefixGrows(sink'.data, sink.data + run[..count], if sub == 2 then [LF] else []);
        return sink', false;
      }
    }
    if sub == 2 {
      var n;
      sink', n := Write(sink', run[|run| - 1..]);
      res := n == 1;
    }
  }

  /** Where STOR is after `done`, with `s` still to come in this chunk. A CR at the end of
      `done` has been written already if something other than LF follows. */
  predicate AtRun(sink: Sink, done: seq<Byte>, s: seq<Byte>, pendedCr: bool, bareLfs: nat) {
    && !sink.short && sink.data == FromNet(done) + Released(done, s)
    && pendedCr == (EndsInCr(done) && Released(done, s) == []) && bareLfs == BareLfs(done)
  }

  /** Behind a run nothing of it is owed but a CR at the end of the chunk. */
  lemma AfterRun(done: seq<Byte>, run: seq<Byte>, s: seq<Byte>, sub: nat, pendedCr: bool)
    requires run != [] && IsRun(done, run, sub, pendedCr) && (sub == 0 ==> s == [])
    ensures Released(done + run, s) == [] && pendedCr == EndsInCr(done + run)
  {
  }

  lemma RunFollows(done: seq<Byte>, run: seq<Byte>, s: seq<Byte>, sub: nat, pendedCr: bool)
    requires run != [] && IsRun(done, run, sub, pendedCr)
    ensures (FromNet(done) + Released(done, run + s)) + Written(run, sub, pendedCr) == FromNet(done + run)
  {
    RunMeaning(done, run, sub, pendedCr);
    assert Released(done, run + s) == Released(done, run);
  }

  lemma PrefixOfStream(out: seq<Byte>, a: seq<Byte>, b: seq<Byte>)
    requires IsPrefix(out, FromNet(a))
    ensures IsPrefix(out, FromNet(a + b))
  {
    FromNetConcat(a, b);
    PrefixGrows(out, FromNet(a), Released(a, b) + FromNet(b));
  }

  /** The next run of a chunk. */
  method StoreRun(sink: Sink, ghost done: seq<Byte>, s: seq<Byte>, pendedCr: bool, bareLfs: nat)
    returns (sink': Sink, i: nat, pendedCr': bool, bareLfs': nat, res: bool)
    requires 0 < |s| <= FTPD_DATASIZE && AtRun(sink, done, s, pendedCr, bareLfs)
    ensures 0 < i <= |s| && Continues(sink, sink')
    ensures res ==> AtRun(sink', done + s[..i], s[i..], pendedCr', bareLfs')
    ensures !res ==> sink'.short && IsPrefix(sink'.data, FromNet(done + s[..i]))
  {
    var sub;
    assert done + s[..0] == done;
    i, sub, pendedCr', bareLfs' := ScanRun(done, s, pendedCr, bareLfs);
    RunFollows(done, s[..i], s[i..], sub, pendedCr');
    AfterRun(done, s[..i], s[i..], sub, pendedCr');
    assert s[..i] + s[i..] == s;
    sink', res := WriteRun(sink, s[..i], sub, pendedCr');
  }

  lemma Advance(pre: seq<Byte>, chunk: seq<Byte>, e: nat, i: nat)
    requires e + i <= |chunk|
    ensures (pre + chunk[..e]) + chunk[e..] == pre + chunk
    ensures (pre + chunk[..e]) + chunk[e..][..i] == pre + chunk[..e + i] && chunk[e..][i..] == chunk[e + i..]
  {
  }

  /** A CR held back at the end of the last buffer is written unless an LF follows. */
  method ReleaseCr(sink: Sink, ghost pre: seq<Byte>, chunk: seq<Byte>, pendedCr: bool, bareLfs: nat)
    returns (sink': Sink, pendedCr': bool, res: bool)
    requires chunk != [] && AtRun(sink, pre, [], pendedCr, bareLfs)
    ensures Continues(sink, sink')
    ensures res ==> AtRun(sink', pre, chunk, pendedCr', bareLfs)
    ensures !res ==> sink'.short && IsPrefix(sink'.data, FromNet(pre + chunk))
  {
    sink', pendedCr', res := sink, pendedCr, true;
    if pendedCr' && chunk[0] != LF {
      pendedCr' := false;
      var n;
      sink', n := Write(sink', [CR]);
      if n != 1 {
        FromNetConcat(pre, chunk);
        PrefixGrows(sink'.data, FromNet(pre) + [CR], FromNet(chunk));
        res := false;
      }
    }
  }

  /** One buffer from the network, where `pre` has come in earlier buffers. */
  method StoreChunk(sink: Sink, ghost pre: seq<Byte>, chunk: seq<Byte>, pendedCr: bool, bareLfs: nat)
    returns (sink': Sink, pendedCr': bool, bareLfs': nat, res: bool)
    requires 0 < |chunk| <= FTPD_DATASIZE && AtRun(sink, pre, [], pendedCr, bareLfs)
    ensures Continues(sink, sink')
    ensures res ==> AtRun(sink', pre + chunk, [], pendedCr', bareLfs')
    ensures !res ==> sink'.short && IsPrefix(sink'.data, FromNet(pre + chunk))
  {
    var e: nat, rest: nat := 0, |chunk|;
    bareLfs' := bareLfs;
    sink', pendedCr', res := ReleaseCr(sink, pre, chunk, pendedCr, bareLfs);
    assert pre + chunk[..0] == pre && chunk[0..] == chunk;
    while res && rest > 0
      invariant e + rest == |chunk| && Continues(sink, sink')
      invariant res ==> AtRun(sink', pre + chunk[..e], chunk[e..], pendedCr', bareLfs')
      invariant !res ==> sink'.short && IsPrefix(sink'.data, FromNet(pre + chunk))
      decreases rest
    {
      var i;
      sink', i, pendedCr', bareLfs', res := StoreRun(sink', pre + chunk[..e], chunk[e..], pendedCr', bareLfs');
      Advance(pre, chunk, e, i);
      e, rest := e + i, rest - i;
      if !res {
        PrefixOfStream(sink'.data, pre + chunk[..e], chunk[e..]);
        Advance(pre, chunk, e, rest);
      }
    }
    assert rest == 0 ==> chunk[..e] == chunk && chunk[e..] == [];
  }

  /** The ASCII branch of STOR with the close of the file: `end` is what the last `recv`
      returned (0 when the client has closed the connection, negative on an error). However the
      stream is cut into chunks, the file gets what has arrived with each CR LF replaced by LF
      and a final unpaired CR withheld, and the LFs without CR are counted; if a write falls
      short, the file has a prefix of that. The reply is that the transfer is complete exactly
      when no write fell short and the file could be closed, whatever `end` is. */
  method Store(chunks: seq<seq<Byte>>, end: int, closes: bool, takes: nat -> int)
    returns (sink: Sink, bareLfs: nat, complete: bool)
    requires end <= 0 && AreBuffers(chunks)
    ensures (complete <==> !sink.short && closes) && (TakesAll(takes) ==> !sink.short)
    ensures !sink.short ==> sink.data == FromNet(Concat(chunks)) && bareLfs == BareLfs(Concat(chunks))
    ensures IsPrefix(sink.data, FromNet(Concat(chunks)))
  {
    var k, pendedCr, res := 0, false, true;
    var n := 1;
    sink, bareLfs := Sink([], takes, 0, false), 0;
    while res && n > 0
      invariant k <= |chunks| && (n <= 0 ==> res && k == |chunks|) && Continues(Sink([], takes, 0, false), sink)
      invariant res ==> AtRun(sink, Concat(chunks[..k]), [], pendedCr, bareLfs)
      invariant !res ==> sink.short && IsPrefix(sink.data, FromNet(Concat(chunks[..k])))
      decreases |chunks| - k, n
    {
      if k == |chunks| {
        n := end;
      } else {
        n := |chunks[k]|;
        ConcatNext(chunks, k);
        sink, pendedCr, bareLfs, res := StoreChunk(sink, Concat(chunks[..k]), chunks[k], pendedCr, bareLfs);
        k := k + 1;
      }
    }
    if res {
      assert chunks[..k] == chunks;
    } else {
      FromNetGrows(chunks, k, sink.data);
    }
    complete := closes && res;
  }

  /** What the client may have sent behind the bytes that arrived: nothing if it closed the
      connection, anything if the connection broke. */
  predicate MayBeLost(end: int, lost: seq<Byte>) {
    end == 0 ==> lost == []
  }

  lemma LostLetter(arrived: seq<Byte>)
    ensures FromNet(arrived + [97]) != FromNet(arrived)
  {
    FromNetSnoc(arrived, 97);
  }

  /** STOR asks neither how the stream ended nor tells: a transfer reported as complete has
      stored the client's whole stream, whatever that was, if and only if the last `recv`
      returned 0. */
  lemma CompleteMeansWhole(arrived: seq<Byte>, end: int)
    ensures (forall lost :: MayBeLost(end, lost) ==> FromNet(arrived) == FromNet(arrived + lost)) <==> end == 0
  {
    if end == 0 {
      assert arrived + [] == arrived;
    } else {
      LostLetter(arrived);
      assert MayBeLost(end, [97]);
    }
  }

  /** The failing case: the client sends two letters, the connection breaks behind the first,
      every write is complete and the file is closed. The reply is that the transfer is
      complete, and the file has one letter. */
  method BrokenConnection() returns (sink: Sink, complete: bool)
    ensures complete && sink.data == [97] != FromNet([97, 98])
  {
    var bareLfs;
    sink, bareLfs, complete := Store([[97]], -1, true, _ => FTPD_DATASIZE);
  }

  /** RETR to a client that sends the received bytes back with STOR, each side with its own
      chunks: a file that does not end in CR comes back unchanged and without a warning. */
  method ThereAndBack(chunks: seq<seq<Byte>>, net: seq<seq<Byte>>, takes: nat -> int, takesBack: nat -> int)
    returns (sent: Sink, back: Sink, bareLfs: nat, complete: bool)
    requires AreBuffers(chunks) && AreBuffers(net) && Concat(net) == ToNet(Concat(chunks))
    ensures TakesAll(takes) && TakesAll(takesBack) ==> complete
    ensures complete ==> sent.data == Concat(net) && bareLfs == 0
    ensures complete ==> (back.data == Concat(chunks) <==> !EndsInCr(Concat(chunks)))
  {
    var there, again;
    sent, there := Retrieve(chunks, 0, true, takes);
    back, bareLfs, again := Store(net, 0, true, takesBack);
    complete := there && again;
    RetrThenStor(Concat(chunks));
  }
}
