/**
 The exchange of results at the end of a measurement: each side prints one line for each stream, and the other side
 reads the lines into its own streams of the same numbers.
 */
module ResultsExchange {
  import opened Options
  import opened Decimal
  import Tokens

  datatype Role = Client | Server

  /** One line: a stream's number, the bytes transferred, and what the receiver of a UDP stream measured. */
  datatype Report = Report(id: int, bytes: nat, jitter: nat, cntError: int, packetCount: int)

  function Line(r: Report): string {
    PrintInt(r.id) + ":" + Print(r.bytes) + "," + PrintFixed(r.jitter) + "," + PrintInt(r.cntError) + "," +
    PrintInt(r.packetCount) + "\n"
  }

  function Lines(reports: seq<Report>): string {
    if reports == [] then "" else Line(reports[0]) + Lines(reports[1..])
  }

  /** sscanf of a line. */
  function ScanLine(s: string): Option<Report> {
    var id :- ReadIntThen(s, ':');
    var bytes :- ReadNatThen(id.1, ',');
    var jitter :- ReadFixedThen(bytes.1, ',');
    var cntError :- ReadIntThen(jitter.1, ',');
    var packetCount :- ReadInt(cntError.1);
    Some(Report(id.0, bytes.0, jitter.0, cntError.0, packetCount.0))
  }

  lemma ScanPrinted(r: Report, rest: string)
    ensures ScanLine(Line(r) + rest) == Some(r)
  {
    hide ReadInt, ReadIntThen, ReadNatThen, ReadFixedThen, PrintInt, Print, PrintFixed;
    var s4 := PrintInt(r.packetCount) + ("\n" + rest);
    var s3 := PrintInt(r.cntError) + [','] + s4;
    var s2 := PrintFixed(r.jitter) + [','] + s3;
    var s1 := Print(r.bytes) + [','] + s2;
    LineInParts(r, rest);
    ReadPrintedThen(r.id, 0, ':', s1);
    ReadPrintedThen(r.bytes, 0, ',', s2);
    ReadPrintedThen(0, r.jitter, ',', s3);
    ReadPrintedThen(r.cntError, 0, ',', s4);
    ReadPrintedInt(r.packetCount, "\n" + rest);
    hide Line;
  }

  lemma LineInParts(r: Report, rest: string)
    ensures Line(r) + rest ==
              PrintInt(r.id) + [':'] + (Print(r.bytes) + [','] + (PrintFixed(r.jitter) + [','] +
              (PrintInt(r.cntError) + [','] + (PrintInt(r.packetCount) + ("\n" + rest)))))
  {
    hide PrintInt, Print, PrintFixed;
  }

  /** The first line: the CPU use of the side that prints it. */
  function FirstLine(cpuUtil: nat): string {
    "-C " + PrintFixed(cpuUtil) + "\n"
  }

  // ---------- Line breaks ----------

  /** strchr(s, '\n'): the length of s if there is none. */
  function BreakAt(s: string): (k: nat)
    ensures k <= |s|
  {
    if s == "" || s[0] == '\n' then 0 else 1 + BreakAt(s[1..])
  }

  lemma {:induction false} BreakBehind(s: string, rest: string)
    requires '\n' !in s
    ensures BreakAt(s + "\n" + rest) == |s|
  {
    if s == "" {
      assert s + "\n" + rest == "\n" + rest;
    } else {
      assert (s + "\n" + rest)[1..] == s[1..] + "\n" + rest;
      BreakBehind(s[1..], rest);
    }
  }

  lemma LineBreak(r: Report, rest: string)
    ensures BreakAt(Line(r) + rest) == |Line(r)| - 1
  {
    NoSeparator(r.id, 0, '\n');
    NoSeparator(r.bytes, r.jitter, '\n');
    NoSeparator(r.cntError, 0, '\n');
    NoSeparator(r.packetCount, 0, '\n');
    var body := Line(r)[..|Line(r)| - 1];
    BreakBehind(body, rest);
    assert body + "\n" + rest == Line(r) + rest;
  }

  lemma FirstLineBreak(cpuUtil: nat, rest: string)
    ensures BreakAt(FirstLine(cpuUtil) + rest) == |FirstLine(cpuUtil)| - 1
  {
    NoSeparator(0, cpuUtil, '\n');
    BreakBehind("-C " + PrintFixed(cpuUtil), rest);
    assert FirstLine(cpuUtil) + rest == ("-C " + PrintFixed(cpuUtil)) + "\n" + rest;
  }

  // ---------- The line buffer ----------

  /** snprintf into a buffer of `size` characters: one is taken by the final zero. */
  function Snprintf(s: string, size: nat): string
    requires size > 0
  {
    if |s| < size then s else s[..size - 1]
  }

  /** The values of a report are in the range of their C types, and the jitter is no absurd number of seconds. */
  predicate InRange(r: Report) {
    && -0x8000_0000 <= r.id < 0x8000_0000
    && -0x8000_0000 <= r.cntError < 0x8000_0000
    && -0x8000_0000 <= r.packetCount < 0x8000_0000
    && r.bytes < 0x1_0000_0000_0000_0000
    && r.jitter < 0x1_0000_0000_0000_0000
  }

  lemma LineFits(r: Report)
    requires InRange(r)
    ensures Snprintf(Line(r), 128) == Line(r)
  {
    IntFits(r.id);
    IntFits(r.cntError);
    IntFits(r.packetCount);
    FixedFits(r.bytes);
    FixedFits(r.jitter);
    hide PrintInt, Print, PrintFixed;
  }

  // ---------- The streams of one side ----------

  datatype StreamState =
    StreamState(id: int, jitter: nat, cntError: int, packetCount: int, bytesSent: nat, bytesReceived: nat)

  /** What a side prints for a stream: the bytes of its own direction. */
  function ReportOf(s: StreamState, sends: bool): Report {
    Report(s.id, if sends then s.bytesSent else s.bytesReceived, s.jitter, s.cntError, s.packetCount)
  }

  /** A sender learns what the receiver measured, and a receiver how many bytes were sent. */
  function Learnt(s: StreamState, r: Report, sends: bool): StreamState {
    if sends then s.(jitter := r.jitter, cntError := r.cntError, packetCount := r.packetCount, bytesReceived := r.bytes)
    else s.(bytesSent := r.bytes)
  }

  /** The last report of a stream. */
  function Latest(reports: seq<Report>, id: int): Option<Report> {
    if reports == [] then None
    else if reports[|reports| - 1].id == id then Some(reports[|reports| - 1])
    else Latest(reports[..|reports| - 1], id)
  }

  /** What becomes of a stream when these reports are read. */
  function AfterReports(s: StreamState, reports: seq<Report>, sends: bool): StreamState {
    match Latest(reports, s.id)
    case None => s
    case Some(r) => Learnt(s, r, sends)
  }

  lemma AfterOneMore(s: StreamState, reports: seq<Report>, k: nat, sends: bool)
    requires k < |reports|
    ensures AfterReports(s, reports[..k], sends).id == s.id
    ensures AfterReports(s, reports[..k + 1], sends) ==
              if reports[k].id == s.id then Learnt(AfterReports(s, reports[..k], sends), reports[k], sends)
              else AfterReports(s, reports[..k], sends)
  {
    assert reports[..k + 1][..k] == reports[..k];
  }

  class Stream {
    var id: int
    var jitter: nat
    var cntError: int
    var packetCount: int
    var bytesSent: nat
    var bytesReceived: nat

    constructor ()
      ensures id == 0 && jitter == 0 && cntError == 0 && packetCount == 0 && bytesSent == 0 && bytesReceived == 0
    {
      id, jitter, cntError, packetCount, bytesSent, bytesReceived := 0, 0, 0, 0, 0, 0;
    }

    function State(): StreamState
      reads this
    {
      StreamState(id, jitter, cntError, packetCount, bytesSent, bytesReceived)
    }
  }

  /** `reports` are what a side with these streams prints, stream by stream. */
  ghost predicate Describes(reports: seq<Report>, own: seq<StreamState>, sends: bool) {
    |reports| == |own| && forall k :: 0 <= k < |own| ==> reports[k] == ReportOf(own[k], sends)
  }

  /** `now` is what the reports made of `own`. */
  ghost predicate Learned(own: seq<StreamState>, reports: seq<Report>, sends: bool, now: seq<StreamState>) {
    |own| == |now| && forall j :: 0 <= j < |own| ==> now[j] == AfterReports(own[j], reports, sends)
  }

  ghost predicate Numbered(own: seq<StreamState>) {
    forall k :: 0 <= k < |own| ==> own[k].id == StreamId(k)
  }

  /** The number of stream k, counted from 0: the second stream is number 3. */
  function StreamId(k: nat): nat {
    if k == 0 then 1 else k + 2
  }

  /** One of the first n streams has this number. */
  ghost predicate Known(n: nat, id: int) {
    exists j :: 0 <= j < n && StreamId(j) == id
  }

  predicate StateInRange(s: StreamState) {
    && InRange(Report(s.id, s.bytesSent, s.jitter, s.cntError, s.packetCount))
    && s.bytesReceived < 0x1_0000_0000_0000_0000
  }

  ghost predicate AllInRange(states: seq<StreamState>) {
    forall k :: 0 <= k < |states| ==> StateInRange(states[k])
  }

  lemma ReportInRange(s: StreamState, sends: bool)
    requires StateInRange(s)
    ensures InRange(ReportOf(s, sends))
  {
  }

  class Test {
    const role: Role
    var reverse: bool
    var streams: seq<Stream>
    var cpuUtil: nat
    var remoteCpuUtil: nat

    constructor (role: Role, reverse: bool)
      ensures Valid() && this.role == role && this.reverse == reverse && streams == []
    {
      this.role, this.reverse, streams, cpuUtil, remoteCpuUtil := role, reverse, [], 0, 0;
    }

    predicate Sends()
      reads this
    {
      (role.Client? && !reverse) || (role.Server? && reverse)
    }

    ghost predicate Valid()
      reads this, streams
    {
      forall k :: 0 <= k < |streams| ==> streams[k].id == StreamId(k)
    }

    ghost function Snapshot(): (own: seq<StreamState>)
      reads this, streams
      ensures |own| == |streams| && forall k :: 0 <= k < |own| ==> own[k] == streams[k].State()
    {
      seq(|streams|, k requires 0 <= k < |streams| reads this, streams => streams[k].State())
    }

    method AddStream(sp: Stream)
      requires Valid() && sp !in streams
      modifies this`streams, sp`id
      ensures Valid() && streams == old(streams) + [sp]
      ensures sp.id == if old(streams) == [] then 1 else old(|streams|) + 2
    {
      if |streams| == 0 {
        streams := [sp];
        sp.id := 1;
      } else {
        var i := 2;
        for n := 0 to |streams|
          invariant i == n + 2
        {
          i := i + 1;
        }
        streams := streams + [sp];
        sp.id := i;
      }
    }

    /** The results string to send. */
    method Package() returns (results: string, ghost reports: seq<Report>)
      requires AllInRange(Snapshot())
      ensures results == FirstLine(cpuUtil) + Lines(reports) && Describes(reports, Snapshot(), Sends())
    {
      hide InRange, Line, FirstLine;
      results := FirstLine(cpuUtil);
      reports := [];
      for k := 0 to |streams|
        invariant |reports| == k && forall m :: 0 <= m < k ==> reports[m] == ReportOf(streams[m].State(), Sends())
        invariant results == FirstLine(cpuUtil) + Lines(reports)
      {
        var sp := streams[k];
        var bytesTransferred := BytesTransferred(sp);
        var report := Report(sp.id, bytesTransferred, sp.jitter, sp.cntError, sp.packetCount);
        assert report == ReportOf(sp.State(), Sends());
        ReportInRange(Snapshot()[k], Sends());
        LineFits(report);
        LinesAppend(reports, report);
        results := results + Snprintf(Line(report), 128);
        reports := reports + [report];
      }
    }

    method BytesTransferred(sp: Stream) returns (bytes: nat)
      ensures bytes == if Sends() then sp.bytesSent else sp.bytesReceived
    {
      if role.Client? {
        bytes := if reverse then sp.bytesReceived else sp.bytesSent;
      } else {
        bytes := if reverse then sp.bytesSent else sp.bytesReceived;
      }
    }

    method FindStream(id: int) returns (j: nat)
      ensures j <= |streams| && (j < |streams| ==> streams[j].id == id)
      ensures forall i :: 0 <= i < j ==> streams[i].id != id
    {
      j := 0;
      while j < |streams| && streams[j].id != id
        invariant 0 <= j <= |streams| && forall i :: 0 <= i < j ==> streams[i].id != id
      {
        j := j + 1;
      }
    }

    /** Stores one report in the stream. */
    method Update(sp: Stream, r: Report)
      modifies sp
      ensures sp.State() == Learnt(old(sp.State()), r, Sends())
    {
      if (role.Client? && !reverse) || (role.Server? && reverse) {
        sp.jitter := r.jitter;
        sp.cntError := r.cntError;
        sp.packetCount := r.packetCount;
        sp.bytesReceived := r.bytes;
      } else {
        sp.bytesSent := r.bytes;
      }
    }

    /** The streams are what the reports made of `own`. */
    ghost predicate Stored(reports: seq<Report>, own: seq<StreamState>)
      reads this, streams
    {
      Learned(own, reports, Sends(), Snapshot())
    }

    /** Stores report number `read` in the stream of its number, if there is one. */
    method Store(
      report: Report, ghost reports: seq<Report>, ghost own: seq<StreamState>, ghost read: nat
    ) returns (found: bool)
      requires Valid() && read < |reports| && report == reports[read] && Stored(reports[..read], own)
      modifies streams
      ensures Valid() && found == Known(|streams|, report.id)
      ensures Stored(reports[..if found then read + 1 else read], own)
    {
      var j := FindStream(report.id);
      if j == |streams| {
        return false;
      }
      forall m | 0 <= m < |streams|
        ensures AfterReports(own[m], reports[..read + 1], Sends()) ==
                  if streams[m].id == report.id then Learnt(streams[m].State(), report, Sends()) else streams[m].State()
      {
        AfterOneMore(own[m], reports, read, Sends());
      }
      hide AfterReports;
      Update(streams[j], report);
      found := true;
    }

    /** Reads the lines up to the end, or to the first with an unknown number: `read` lines in all. */
    method ReadLines(
      text: string, ghost reports: seq<Report>, ghost own: seq<StreamState>
    ) returns (ok: bool, ghost read: nat)
      requires Valid() && text == Lines(reports) && Stored([], own)
      modifies streams
      ensures Valid() && read <= |reports| && ok == (read == |reports|)
      ensures Stored(reports[..read], own)
      ensures forall k :: 0 <= k < read ==> Known(|streams|, reports[k].id)
      ensures !ok ==> !Known(|streams|, reports[read].id)
    {
      hide ScanLine, BreakAt, Lines, AfterReports, Known;
      LinesEmpty([]);
      assert reports[..0] == [] && reports[0..] == reports;
      var at := 0;
      read := 0;
      while at < |text|
        invariant at <= |text| && read <= |reports| && text[at..] == Lines(reports[read..])
        invariant Valid() && Stored(reports[..read], own)
        invariant forall k :: 0 <= k < read ==> Known(|streams|, reports[k].id)
      {
        NextLine(text[at..], reports, read);
        var found := Store(ScanLine(text[at..]).value, reports, own, read);
        if !found {
          return false, read;
        }
        at := at + BreakAt(text[at..]) + 1;
        read := read + 1;
      }
      LinesEmpty(reports[read..]);
      ok := true;
    }

    /** The first line gives the other side's CPU use, the others its streams. */
    method ParseResults(results: string, ghost cpu: nat, ghost reports: seq<Report>) returns (ok: bool, ghost read: nat)
      requires Valid() && results == FirstLine(cpu) + Lines(reports)
      modifies this`remoteCpuUtil, streams
      ensures Valid() && read <= |reports| && ok == (read == |reports|) && remoteCpuUtil == cpu
      ensures Learned(old(Snapshot()), reports[..read], Sends(), Snapshot())
      ensures forall k :: 0 <= k < read ==> Known(|streams|, reports[k].id)
      ensures !ok ==> !Known(|streams|, reports[read].id)
    {
      hide BreakAt, Lines, Learned, Known, Tokens.Split, PrintFixed;
      FirstLineBreak(cpu, Lines(reports));
      var end := BreakAt(results);
      assert results[..end] == "-C " + PrintFixed(cpu) && results[end + 1..] == Lines(reports);
      FirstLineTokens(cpu);
      var tokens := Tokens.Split(results[..end]);
      var i := 0;
      while i < |tokens|
        invariant i == 0 || (i == 2 && remoteCpuUtil == cpu)
        invariant Valid() && Snapshot() == old(Snapshot())
      {
        if tokens[i] == "-C" {
          remoteCpuUtil := ReadFixed(tokens[i + 1]).value.0;
          i := i + 2;
        } else {
          i := i + 1;
        }
      }
      LearnedNothing(Snapshot(), Sends());
      ok, read := ReadLines(results[end + 1..], reports, old(Snapshot()));
    }
  }

  lemma LearnedNothing(own: seq<StreamState>, sends: bool)
    ensures Learned(own, [], sends, own)
  {
  }

  lemma FirstLineTokens(cpu: nat)
    ensures Tokens.Split("-C " + PrintFixed(cpu)) == ["-C", PrintFixed(cpu)]
    ensures ReadFixed(PrintFixed(cpu)) == Some((cpu, ""))
  {
    NoSeparator(0, cpu, ' ');
    PrintIsDigits(cpu / 1000000);
    var number := PrintFixed(cpu);
    Tokens.SplitFirst("-C", " " + number);
    assert "-C" + (" " + number) == "-C " + number;
    assert (" " + number)[1..] == number;
    Tokens.SplitFirst(number, "");
    assert number + "" == number;
    ReadPrintedFixed(cpu, "");
  }

  // ---------- The exchange ----------

  lemma {:induction false} LatestOfNumbered(reports: seq<Report>, k: nat)
    requires forall m :: 0 <= m < |reports| ==> reports[m].id == StreamId(m)
    ensures Latest(reports, StreamId(k)) == if k < |reports| then Some(reports[k]) else None
  {
    if reports != [] {
      LatestOfNumbered(reports[..|reports| - 1], k);
    }
  }

  /** What both sides should end up with: the receiver's view, with the bytes that the sender counted. */
  function Merged(sender: StreamState, receiver: StreamState): StreamState {
    receiver.(bytesSent := sender.bytesSent)
  }

  lemma LinesEmpty(reports: seq<Report>)
    ensures Lines(reports) == "" <==> reports == []
  {
    if reports != [] {
      LineBreak(reports[0], "");
    }
  }

  /** What the loop finds at the front of the lines that are left. */
  lemma NextLine(text: string, reports: seq<Report>, k: nat)
    requires k <= |reports| && text == Lines(reports[k..]) && text != ""
    ensures k < |reports| && ScanLine(text) == Some(reports[k]) && BreakAt(text) < |text|
    ensures text[BreakAt(text) + 1..] == Lines(reports[k + 1..])
  {
    assert reports[k..][1..] == reports[k + 1..];
    ScanPrinted(reports[k], Lines(reports[k + 1..]));
    LineBreak(reports[k], Lines(reports[k + 1..]));
    hide ScanLine, BreakAt, Line;
  }

  /** A stream on both sides: the server reads the client's report, and the client then the server's. */
  lemma BothMerged(client: StreamState, server: StreamState, clientSends: bool)
    requires client.id == server.id
    ensures var server' := Learnt(server, ReportOf(client, clientSends), !clientSends);
            var client' := Learnt(client, ReportOf(server', !clientSends), clientSends);
            server' == client' == if clientSends then Merged(client, server) else Merged(server, client)
  {
  }

  /** The reports of one side's streams are what the other side's streams of the same numbers learn. */
  lemma LearnedAll(
    own: seq<StreamState>, reports: seq<Report>, theirs: seq<StreamState>, sends: bool, now: seq<StreamState>
  )
    requires Numbered(own) && Numbered(theirs) && |own| == |theirs|
    requires Describes(reports, theirs, !sends) && Learned(own, reports, sends, now)
    ensures forall k :: 0 <= k < |own| ==> now[k] == Learnt(own[k], ReportOf(theirs[k], !sends), sends)
  {
    forall k | 0 <= k < |own| ensures now[k] == Learnt(own[k], ReportOf(theirs[k], !sends), sends) {
      LatestOfNumbered(reports, k);
    }
  }

  lemma AllMerged(client: seq<StreamState>, server: seq<StreamState>, clientSends: bool,
                  fromClient: seq<Report>, server': seq<StreamState>,
                  fromServer: seq<Report>, client': seq<StreamState>)
    requires Numbered(client) && Numbered(server) && |client| == |server|
    requires Describes(fromClient, client, clientSends) && Learned(server, fromClient, !clientSends, server')
    requires Numbered(server')
    requires Describes(fromServer, server', !clientSends) && Learned(client, fromServer, clientSends, client')
    ensures forall k :: 0 <= k < |client| ==>
              server'[k] == client'[k]
              == if clientSends then Merged(client[k], server[k]) else Merged(server[k], client[k])
  {
    LearnedAll(server, fromClient, client, !clientSends, server');
    LearnedAll(client, fromServer, server', clientSends, client');
    forall k | 0 <= k < |client|
      ensures
        server'[k]
        == client'[k] == if clientSends then Merged(client[k], server[k]) else Merged(server[k], client[k])
    {
      BothMerged(client[k], server[k], clientSends);
    }
  }

  /** What a side learns from values in range is in range. */
  lemma LearnedInRange(
    own: seq<StreamState>, reports: seq<Report>, theirs: seq<StreamState>, sends: bool, now: seq<StreamState>
  )
    requires Describes(reports, theirs, !sends) && Learned(own, reports, sends, now)
    requires AllInRange(own) && AllInRange(theirs)
    ensures AllInRange(now)
  {
    forall k | 0 <= k < |now| ensures StateInRange(now[k]) {
      LatestIsOne(reports, own[k].id);
    }
  }

  lemma {:induction false} LatestIsOne(reports: seq<Report>, id: int)
    ensures Latest(reports, id).Some? ==> exists m :: 0 <= m < |reports| && Latest(reports, id).value == reports[m]
  {
    if reports != [] && reports[|reports| - 1].id != id {
      LatestIsOne(reports[..|reports| - 1], id);
    }
  }

  /** All of one side's reports are known to the other side exactly if that has as many streams. */
  lemma AllKnown(reports: seq<Report>, own: seq<StreamState>, sends: bool, n: nat, read: nat)
    requires Describes(reports, own, sends) && Numbered(own) && read <= |reports|
    requires forall k :: 0 <= k < read ==> Known(n, reports[k].id)
    requires read < |reports| ==> !Known(n, reports[read].id)
    ensures read == |reports| <==> |own| <= n
  {
    if read < |reports| {
      KnownStream(n, read);
    }
    if n < |reports| {
      KnownStream(n, n);
    }
  }

  lemma KnownStream(n: nat, k: nat)
    ensures Known(n, StreamId(k)) <==> k < n
  {
    assert k < n ==> StreamId(k) == StreamId(k);
  }

  lemma SnapshotNumbered(side: Test)
    requires side.Valid()
    ensures Numbered(side.Snapshot())
  {
  }

  ghost predicate Apart(from: Test, to: Test)
    reads from, to
  {
    from != to && forall i, j :: 0 <= i < |from.streams| && 0 <= j < |to.streams| ==> from.streams[i] != to.streams[j]
  }

  /** One side sends its results and the other reads them: the first or the second half of the exchange. */
  method Transfer(from: Test, to: Test) returns (ok: bool, ghost reports: seq<Report>)
    requires Apart(from, to) && from.Valid() && to.Valid() && from.Sends() == !to.Sends()
    requires AllInRange(from.Snapshot()) && AllInRange(to.Snapshot())
    modifies to`remoteCpuUtil, to.streams
    ensures from.Valid() && to.Valid() && from.Snapshot() == old(from.Snapshot())
    ensures ok <==> |from.streams| <= |to.streams|
    ensures to.remoteCpuUtil == from.cpuUtil
    ensures ok ==> Describes(reports, from.Snapshot(), from.Sends())
    ensures ok ==> Learned(old(to.Snapshot()), reports, to.Sends(), to.Snapshot())
    ensures ok ==> AllInRange(to.Snapshot())
  {
    hide FirstLine, Lines, Learned, Describes, AllInRange, Known, Numbered;
    ghost var theirs, own := from.Snapshot(), to.Snapshot();
    ghost var read;
    SnapshotNumbered(from);
    var results;
    results, reports := from.Package();
    ok, read := to.ParseResults(results, from.cpuUtil, reports);
    AllKnown(reports, theirs, from.Sends(), |to.streams|, read);
    if ok {
      assert reports[..read] == reports;
      LearnedInRange(own, reports, theirs, to.Sends(), to.Snapshot());
    }
  }

  /**
   The exchange succeeds if and only if both sides have the same number of streams, and then both hold the same values
   for each stream: the bytes that its sender counted, and everything else as its receiver measured it.
   */
  method ExchangeResults(client: Test, server: Test) returns (ok: bool)
    requires client.role.Client? && server.role.Server? && client.reverse == server.reverse
    requires client.Valid() && server.Valid()
    requires Apart(client, server)
    requires AllInRange(client.Snapshot()) && AllInRange(server.Snapshot())
    modifies client`remoteCpuUtil, server`remoteCpuUtil, client.streams, server.streams
    ensures ok <==> |client.streams| == |server.streams|
    ensures ok ==> client.remoteCpuUtil == server.cpuUtil && server.remoteCpuUtil == client.cpuUtil
    ensures ok ==> forall k :: 0 <= k < |client.streams| ==>
                     var c, s := old(client.streams[k].State()), old(server.streams[k].State());
                     var (sender, receiver) := if client.reverse then (s, c) else (c, s);
                     var now := client.streams[k].State();
                     && server.streams[k].State() == now
                     && now.id == c.id && now.bytesSent == sender.bytesSent
                     && now.bytesReceived == receiver.bytesReceived && now.jitter == receiver.jitter
                     && now.cntError == receiver.cntError && now.packetCount == receiver.packetCount
  {
    hide Learned, Describes, AllInRange, Numbered, Learnt;
    ghost var client0, server0 := client.Snapshot(), server.Snapshot();
    SnapshotNumbered(client);
    SnapshotNumbered(server);
    ghost var fromClient, fromServer;
    ok, fromClient := Transfer(client, server);
    if !ok {
      return;
    }
    ghost var server1 := server.Snapshot();
    SnapshotNumbered(server);
    ok, fromServer := Transfer(server, client);
    if ok {
      AllMerged(client0, server0, client.Sends(), fromClient, server1, fromServer, client.Snapshot());
    }
  }

  lemma {:induction false} LinesAppend(reports: seq<Report>, r: Report)
    ensures Lines(reports + [r]) == Lines(reports) + Line(r)
  {
    hide Line;
    if reports == [] {
      assert Lines([r]) == Line(r) + Lines([]);
    } else {
      assert (reports + [r])[1..] == reports[1..] + [r];
      LinesAppend(reports[1..], r);
    }
  }
}